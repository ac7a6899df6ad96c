/**
 * One shard's table of pools: rows keyed by pool id, each holding the pool's
 * values and a flag saying whether they are stored in ascending order.
 *
 * The row-level functions say what `insert_pool`, `append_pool_values` and
 * `sort_pool_values` do to one row; the class `PoolTable` applies them to its
 * map of rows in place.
 */
module PoolTable {
  import opened Sorting

  /** A row of the table: the pool's values and the `sorted` column (1 as true). */
  datatype Row = Row(values: seq<real>, sorted: bool)

  /** The sorted flag tells the truth: a row marked sorted holds ascending values. */
  predicate RowOk(row: Row) {
    row.sorted ==> Ascending(row.values)
  }

  /** Every row of the table keeps its flag truthful. */
  predicate TableOk(rows: map<int, Row>) {
    forall id :: id in rows ==> RowOk(rows[id])
  }

  /** The row `insert_pool` creates: a one-value list is already in order. */
  function NewRow(values: seq<real>): (row: Row)
    ensures row.values == values
    ensures row.sorted <==> |values| == 1
    ensures RowOk(row)
  {
    Row(values, |values| == 1)
  }

  /** The row after `append_pool_values`: old values, then the new ones, marked unsorted. */
  function AppendValues(row: Row, values: seq<real>): (r: Row)
    ensures |r.values| == |row.values| + |values|
    ensures r.values[..|row.values|] == row.values && r.values[|row.values|..] == values
    ensures multiset(r.values) == multiset(row.values) + multiset(values)
    ensures !r.sorted && RowOk(r)
  {
    var all := row.values + values;
    assert all[..|row.values|] == row.values && all[|row.values|..] == values;
    Row(all, false)
  }

  /** The outcome of `sort_pool_values` on one row. */
  datatype SortOutcome = SortOutcome(row: Row, values: seq<real>, changed: bool)

  /** `sort_pool_values` on one row: sort only when the flag is off. */
  function SortIfNeeded(row: Row): (o: SortOutcome)
    ensures o.changed <==> !row.sorted
    ensures o.row.sorted && o.row.values == o.values
    ensures multiset(o.values) == multiset(row.values)
    ensures !o.changed ==> o.row == row
    ensures o.changed ==> Ascending(o.values)
  {
    if !row.sorted then
      var s := SortAscending(row.values);
      SortOutcome(Row(s, true), s, true)
    else
      SortOutcome(row, row.values, false)
  }

  /** On a truthful row the values handed to the quantile engine are the sorted values. */
  lemma SortIfNeededSorts(row: Row)
    requires RowOk(row)
    ensures SortIfNeeded(row).values == SortAscending(row.values)
    ensures RowOk(SortIfNeeded(row).row)
  {
    if row.sorted {
      SortOfAscending(row.values);
    }
  }

  /** The lazy sort is idempotent: a second call changes nothing and reports no change. */
  lemma SortTwiceUnchanged(row: Row)
    ensures var first := SortIfNeeded(row);
      var second := SortIfNeeded(first.row);
      !second.changed && second.row == first.row && second.values == first.values
  {
  }

  /** Appending and then sorting gives the sorted concatenation, whatever the old flag. */
  lemma AppendThenSort(row: Row, values: seq<real>)
    ensures SortIfNeeded(AppendValues(row, values)).changed
    ensures SortIfNeeded(AppendValues(row, values)).values == SortAscending(row.values + values)
  {
  }

  /** An in-memory shard table; the methods change its rows in place. */
  class PoolTable {
    var rows: map<int, Row>

    ghost predicate Valid()
      reads this
    {
      TableOk(rows)
    }

    /** A table holding the rows read from a shard file. */
    constructor Load(stored: map<int, Row>)
      ensures rows == stored
    {
      rows := stored;
    }

    /** An empty table, for a shard that has no file yet. */
    constructor Empty()
      ensures rows == map[]
      ensures Valid()
    {
      rows := map[];
    }

    /** `does_pool_exist`: whether the table has a row for `id`. */
    function HasPool(id: int): bool
      reads this
    {
      id in rows
    }

    /** `insert_pool`: adds a row for an id that has none. */
    method Insert(id: int, values: seq<real>)
      requires id !in rows
      modifies this
      ensures rows == old(rows)[id := NewRow(values)]
      ensures rows.Keys == old(rows).Keys + {id}
      ensures old(Valid()) ==> Valid()
    {
      rows := rows[id := NewRow(values)];
    }

    /** `append_pool_values`: puts `values` after the row's values and clears its flag. */
    method Append(id: int, values: seq<real>)
      requires id in rows
      modifies this
      ensures rows == old(rows)[id := AppendValues(old(rows)[id], values)]
      ensures rows.Keys == old(rows).Keys
      ensures old(Valid()) ==> Valid()
    {
      rows := rows[id := AppendValues(rows[id], values)];
    }

    /** `sort_pool_values`: sorts the row if its flag is off and reports whether the table changed. */
    method Sort(id: int) returns (values: seq<real>, changed: bool)
      requires id in rows
      modifies this
      ensures changed <==> !old(rows)[id].sorted
      ensures values == SortIfNeeded(old(rows)[id]).values
      ensures changed ==> rows == old(rows)[id := Row(values, true)]
      ensures !changed ==> rows == old(rows) && values == old(rows)[id].values
      ensures old(Valid()) ==> Valid() && values == SortAscending(old(rows)[id].values)
    {
      var outcome := SortIfNeeded(rows[id]);
      if outcome.changed {
        rows := rows[id := outcome.row];
      }
      values, changed := outcome.values, outcome.changed;
      if old(Valid()) {
        SortIfNeededSorts(old(rows)[id]);
      }
    }
  }
}
