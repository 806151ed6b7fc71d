/**
 The data side of `CustomerDetails` (app/page.tsx): the fixture items are
 projected into table rows, and the rows are optionally restricted by a
 `(category, value)` filter chosen in the location tree. A row is kept when
 the field the category names equals the filter value exactly.
 The fixture itself is not part of this model; it is any sequence of items.
 */
module Customers {
  import opened Options
  import RowKeys

  /** A fixture item: the seven fields the table uses, plus whatever other
      fields the item carries, which the projection drops. */
  datatype Item = Item(
    id: string, name: string, address: string, city: string,
    state: string, pinCode: string, country: string,
    extra: map<string, string>)

  /** A table row: exactly the seven fields copied from an item. */
  datatype Row = Row(
    id: string, name: string, address: string, city: string,
    state: string, pinCode: string, country: string)

  /** `FilterType.category`: the tree only filters on these three fields. */
  datatype Category = Country | State | City

  datatype Filter = Filter(category: Category, value: string)

  /** The row field a category names. */
  function CategoryField(c: Category): RowKeys.RowField
  {
    match c
    case Country => RowKeys.Country
    case State => RowKeys.State
    case City => RowKeys.City
  }

  /** The value a row holds for a field. */
  function FieldValue(row: Row, f: RowKeys.RowField): string
  {
    match f
    case Id => row.id
    case Name => row.name
    case Address => row.address
    case City => row.city
    case State => row.state
    case PinCode => row.pinCode
    case Country => row.country
  }

  /** The value of the field a category names. */
  function Field(row: Row, c: Category): string
  {
    FieldValue(row, CategoryField(c))
  }

  predicate Matches(row: Row, f: Filter) {
    Field(row, f.category) == f.value
  }

  /** Whether the seven table fields of an item and a row agree. */
  predicate SameFields(item: Item, row: Row) {
    && row.id == item.id && row.name == item.name && row.address == item.address
    && row.city == item.city && row.state == item.state
    && row.pinCode == item.pinCode && row.country == item.country
  }

  /** The destructuring copy of one item into a row. */
  function Project(item: Item): (row: Row)
    ensures SameFields(item, row)
  {
    Row(item.id, item.name, item.address, item.city, item.state, item.pinCode, item.country)
  }

  /** `rows`: the fixture mapped item by item. */
  function Rows(items: seq<Item>): (rows: seq<Row>)
    ensures |rows| == |items|
    ensures forall i :: 0 <= i < |items| ==> SameFields(items[i], rows[i])
  {
    seq(|items|, i requires 0 <= i < |items| => Project(items[i]))
  }

  /** The data columns of the table, in order, before the actions column. */
  function ColumnFields(): seq<RowKeys.RowField>
  {
    [RowKeys.Id, RowKeys.Name, RowKeys.Address, RowKeys.City, RowKeys.PinCode, RowKeys.Country]
  }

  /** `rows.filter(...)` for a present filter. */
  function Keep(rows: seq<Row>, f: Filter): (r: seq<Row>)
    ensures |r| <= |rows|
    ensures forall k :: 0 <= k < |r| ==> Matches(r[k], f)
  {
    if |rows| == 0 then []
    else Keep(rows[..|rows| - 1], f) + (if Matches(rows[|rows| - 1], f) then [rows[|rows| - 1]] else [])
  }

  /** `filteredRows`: all rows without a filter, the matching ones with one. */
  function FilteredRows(items: seq<Item>, filter: Option<Filter>): (r: seq<Row>)
    ensures |r| <= |items|
    ensures filter.None? ==> |r| == |items| && forall i :: 0 <= i < |items| ==> SameFields(items[i], r[i])
    ensures filter.Some? ==> forall k :: 0 <= k < |r| ==> Matches(r[k], filter.value)
  {
    match filter
    case None => Rows(items)
    case Some(f) => Keep(Rows(items), f)
  }

  // ---------------------------------------------------------------------
  // Columns

  /** The table has a column for every row field except `state`. */
  lemma ColumnsAreRowFields(f: RowKeys.RowField)
    ensures f in ColumnFields() <==> f != RowKeys.State
  {
  }

  // ---------------------------------------------------------------------
  // Projection

  /** A row rebuilt into an item without extra fields. */
  function ToItem(row: Row): (item: Item)
    ensures SameFields(item, row) && item.extra == map[]
  {
    Item(row.id, row.name, row.address, row.city, row.state, row.pinCode, row.country, map[])
  }

  /** The projection loses nothing of the table fields: a row survives the
      trip through an item, and two items give the same row exactly when
      they differ at most in their extra fields. */
  lemma ProjectRoundTrip(row: Row, a: Item, b: Item)
    ensures Project(ToItem(row)) == row
    ensures Project(a) == Project(b) <==> a.(extra := map[]) == b.(extra := map[])
  {
  }

  // ---------------------------------------------------------------------
  // Filtering

  /** The positions of `rows` the filter keeps, in increasing order. */
  function KeptIndices(rows: seq<Row>, f: Filter): seq<nat>
  {
    if |rows| == 0 then []
    else KeptIndices(rows[..|rows| - 1], f) + (if Matches(rows[|rows| - 1], f) then [|rows| - 1] else [])
  }

  /** The filter result is `rows` read at exactly the matching positions,
      in their original order: an order-preserving subsequence that is
      sound (every kept row matches) and complete (every matching row is
      kept, as often as it occurs). */
  lemma {:induction false} KeepSelectsMatchingPositions(rows: seq<Row>, f: Filter)
    ensures var r, ix := Keep(rows, f), KeptIndices(rows, f);
      && |ix| == |r|
      && (forall k :: 0 <= k < |ix| ==> ix[k] < |rows| && r[k] == rows[ix[k]])
      && (forall k, l :: 0 <= k < l < |ix| ==> ix[k] < ix[l])
      && (forall i :: 0 <= i < |rows| ==> (i in ix <==> Matches(rows[i], f)))
  {
    if |rows| > 0 {
      var front := rows[..|rows| - 1];
      KeepSelectsMatchingPositions(front, f);
      var r, ix := Keep(rows, f), KeptIndices(rows, f);
      var r0, ix0 := Keep(front, f), KeptIndices(front, f);
      forall k | 0 <= k < |ix|
        ensures ix[k] < |rows| && r[k] == rows[ix[k]]
      {
        if k < |ix0| {
          assert ix[k] == ix0[k] && r[k] == r0[k];
          assert rows[ix[k]] == front[ix[k]];
        }
      }
      forall i | 0 <= i < |rows|
        ensures i in ix <==> Matches(rows[i], f)
      {
        if i < |rows| - 1 {
          assert rows[i] == front[i];
          assert i in ix <==> i in ix0;
        }
      }
    }
  }

  /** Every row that matches is in the result, and only those. */
  lemma KeepSoundAndComplete(rows: seq<Row>, f: Filter, x: Row)
    ensures x in Keep(rows, f) <==> x in rows && Matches(x, f)
  {
    KeepSelectsMatchingPositions(rows, f);
    var r, ix := Keep(rows, f), KeptIndices(rows, f);
    if x in r {
      var k :| 0 <= k < |r| && r[k] == x;
      assert rows[ix[k]] == x;
    }
    if x in rows && Matches(x, f) {
      var i :| 0 <= i < |rows| && rows[i] == x;
      assert i in ix;
      var k :| 0 <= k < |ix| && ix[k] == i;
      assert r[k] == x;
    }
  }

  /** When every row matches, the filter keeps them all; in particular a
      second application of the same filter changes nothing. */
  lemma {:induction false} KeepAllMatching(rows: seq<Row>, f: Filter)
    requires forall k :: 0 <= k < |rows| ==> Matches(rows[k], f)
    ensures Keep(rows, f) == rows
  {
    if |rows| > 0 {
      KeepAllMatching(rows[..|rows| - 1], f);
      assert rows[..|rows| - 1] + [rows[|rows| - 1]] == rows;
    }
  }

  lemma KeepIdempotent(rows: seq<Row>, f: Filter)
    ensures Keep(Keep(rows, f), f) == Keep(rows, f)
  {
    KeepAllMatching(Keep(rows, f), f);
  }

  /** The filter returns all rows exactly when all of them match. */
  lemma KeepIsIdentityIff(rows: seq<Row>, f: Filter)
    ensures Keep(rows, f) == rows <==> forall k :: 0 <= k < |rows| ==> Matches(rows[k], f)
  {
    if forall k :: 0 <= k < |rows| ==> Matches(rows[k], f) {
      KeepAllMatching(rows, f);
    }
  }

  /** Without a filter the table shows every projected row; with one it
      shows exactly the projected rows whose named field equals the value. */
  lemma FilteredRowsContents(items: seq<Item>, filter: Option<Filter>, x: Row)
    ensures filter.None? ==> FilteredRows(items, filter) == Rows(items)
    ensures filter.None? ==> |FilteredRows(items, filter)| == |items|
    ensures filter.Some? ==>
      (x in FilteredRows(items, filter) <==> x in Rows(items) && Field(x, filter.value.category) == filter.value.value)
    ensures |FilteredRows(items, filter)| <= |items|
  {
    if filter.Some? {
      KeepSoundAndComplete(Rows(items), filter.value, x);
    }
  }

  // ---------------------------------------------------------------------
  // Indexing a row by an arbitrary key

  /** `row[key]` at run time, as far as the filter can tell: the field the
      key names, or `None` for every other key. Such a key reads as
      `undefined`, or as a non-string member inherited from
      `Object.prototype`; neither equals a string value. */
  function FieldNamed(row: Row, key: string): (r: Option<string>)
    ensures forall f :: RowKeys.Key(f) == key ==> r == Some(FieldValue(row, f))
  {
    if key == "id" then Some(row.id)
    else if key == "name" then Some(row.name)
    else if key == "address" then Some(row.address)
    else if key == "city" then Some(row.city)
    else if key == "state" then Some(row.state)
    else if key == "pinCode" then Some(row.pinCode)
    else if key == "country" then Some(row.country)
    else None
  }

  predicate IsFieldName(key: string) {
    key in ["id", "name", "address", "city", "state", "pinCode", "country"]
  }

  /** The property name of the field a category names. */
  function CategoryName(c: Category): string
  {
    RowKeys.Key(CategoryField(c))
  }

  /** The filter predicate with the category as the raw key the tree node
      carries. A key that names no field yields no string, and `===`
      against the string value is false, so such a key matches nothing. */
  function KeepByKey(rows: seq<Row>, key: string, value: string): (r: seq<Row>)
    ensures |r| <= |rows|
    ensures forall k :: 0 <= k < |r| ==> FieldNamed(r[k], key) == Some(value)
  {
    if |rows| == 0 then []
    else KeepByKey(rows[..|rows| - 1], key, value)
         + (if FieldNamed(rows[|rows| - 1], key) == Some(value) then [rows[|rows| - 1]] else [])
  }

  /** Indexing a row yields a string exactly for the seven field names. */
  lemma UnknownKeyIsUndefined(row: Row, key: string)
    ensures FieldNamed(row, key).Some? <==> IsFieldName(key)
  {
  }

  /** Indexing by a category's name is the typed filter. */
  lemma {:induction false} KeepByKeyAgrees(rows: seq<Row>, c: Category, value: string)
    ensures KeepByKey(rows, CategoryName(c), value) == Keep(rows, Filter(c, value))
  {
    if |rows| > 0 {
      KeepByKeyAgrees(rows[..|rows| - 1], c, value);
    }
  }

  /** Indexing by a key that is no field yields an empty table rather than
      an error. */
  lemma {:induction false} KeepByUnknownKeyIsEmpty(rows: seq<Row>, key: string, value: string)
    requires !IsFieldName(key)
    ensures KeepByKey(rows, key, value) == []
  {
    if |rows| > 0 {
      KeepByUnknownKeyIsEmpty(rows[..|rows| - 1], key, value);
      UnknownKeyIsUndefined(rows[|rows| - 1], key);
    }
  }
}
