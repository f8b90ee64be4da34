/**
 * Column configuration and the translation of an ordered id list into DataTables rows
 * (`_buildColumnConfig`, index.js:358-363, and `_translateData`, index.js:409-433).
 */
module Translation {
  import opened Values
  import opened Seqs

  /** A record id as the server lists it. */
  type Id = int

  /** The attributes of one cached record; `model.get(label)` reads them. */
  type Record = map<string, Value>

  /** The DataTables column options the view reads (`name`) or fills in by default (`name`, `data`). */
  datatype ColumnOptions = ColumnOptions(name: string, data: string)

  /** A column: the record attribute it shows (its `label`) and its DataTables options. */
  datatype Column = Column(columnLabel: string, options: ColumnOptions)

  /** One property of a row object. */
  datatype Entry = Entry(key: string, cell: Value)

  /** A row object, its properties in insertion order (the order DataTables lays out cells in). */
  type Row = seq<Entry>

  /** `_buildColumnConfig(label, columnOptions)`: the options given, or default ones that name the column by its label. */
  function BuildColumnConfig(columnLabel: string, columnOptions: Option<ColumnOptions>): (c: Column)
    ensures c.columnLabel == columnLabel
    ensures columnOptions.Some? ==> c.options == columnOptions.value
    ensures columnOptions.None? ==> c.options.name == columnLabel && c.options.data == columnLabel
  {
    Column(columnLabel, match columnOptions case Some(o) => o case None => ColumnOptions(columnLabel, columnLabel))
  }

  /** `model.get(label)`: an attribute the record lacks reads as `undefined`. */
  function Attribute(rec: Record, columnLabel: string): (v: Value)
    ensures columnLabel !in rec ==> !Truthy(v)
    ensures Truthy(v) ==> columnLabel in rec && v == rec[columnLabel]
  {
    if columnLabel in rec then rec[columnLabel] else Undefined
  }

  /**
   * The cell for one column: the attribute defaulted with `|| ''`; when that is a string, the
   * escape function applied to the attribute as read from the record.
   */
  function Cell(rec: Record, col: Column, escape: Value -> string): (v: Value)
    ensures var raw := Attribute(rec, col.columnLabel);
      && (Truthy(raw) && raw.Str? ==> v == Str(escape(raw)))
      && (!Truthy(raw) ==> v == Str(escape(raw)))
      && (Truthy(raw) && !raw.Str? ==> v == raw)
  {
    var raw := Attribute(rec, col.columnLabel);
    var data := Or(raw, Str(""));
    if data.Str? then Str(escape(raw)) else data
  }

  /**
   * With an escape function that renders `undefined`, `null` and `''` as the empty string (as
   * Handlebars does), a missing, null or empty attribute gives an empty cell.
   */
  lemma CellOfEmpty(rec: Record, col: Column, escape: Value -> string)
    requires escape(Undefined) == "" && escape(Null) == "" && escape(Str("")) == ""
    requires col.columnLabel !in rec || rec[col.columnLabel] == Null || rec[col.columnLabel] == Str("")
    ensures Cell(rec, col, escape) == Str("")
  {
  }

  function Keys(row: Row): seq<string> {
    if row == [] then [] else [row[0].key] + Keys(row[1..])
  }

  /** The value of property `k`, if the row has one. */
  function Lookup(row: Row, k: string): Option<Value> {
    if row == [] then None
    else if row[0].key == k then Some(row[0].cell)
    else Lookup(row[1..], k)
  }

  /** `row[k] = v` on a JavaScript object: overwrite in place if present, otherwise append. */
  function Put(row: Row, k: string, v: Value): (r: Row)
    ensures |r| == (if k in Keys(row) then |row| else |row| + 1)
    ensures Keys(r) == if k in Keys(row) then Keys(row) else Keys(row) + [k]
    ensures k !in Keys(row) ==> r == row + [Entry(k, v)]
    ensures Lookup(r, k) == Some(v)
    ensures forall k' :: k' != k ==> Lookup(r, k') == Lookup(row, k')
  {
    if row == [] then [Entry(k, v)]
    else if row[0].key == k then [Entry(k, v)] + row[1..]
    else
      assert row == [row[0]] + row[1..];
      [row[0]] + Put(row[1..], k, v)
  }

  /** The row object built column by column, left to right (index.js:420-429). */
  function RowOf(rec: Record, cols: seq<Column>, escape: Value -> string): (row: Row)
    ensures |row| <= |cols|
    ensures cols != [] ==> row != []
  {
    if cols == [] then []
    else
      var col := cols[|cols| - 1];
      Put(RowOf(rec, cols[..|cols| - 1], escape), col.options.name, Cell(rec, col, escape))
  }

  /** The output keys of the columns, in column order. */
  function Names(cols: seq<Column>): (names: seq<string>)
    ensures |names| == |cols|
  {
    seq(|cols|, i requires 0 <= i < |cols| => cols[i].options.name)
  }

  /** One entry per column, keyed by its output name, in column order. */
  function Entries(rec: Record, cols: seq<Column>, escape: Value -> string): (row: Row)
    ensures |row| == |cols|
  {
    seq(|cols|, i requires 0 <= i < |cols| => Entry(cols[i].options.name, Cell(rec, cols[i], escape)))
  }

  lemma NamesInit(cols: seq<Column>)
    requires cols != []
    ensures Names(cols) == Names(cols[..|cols| - 1]) + [cols[|cols| - 1].options.name]
  {
  }

  /** A row has no repeated key, and its keys are exactly the output names of the columns. */
  lemma {:induction false} RowOfKeys(rec: Record, cols: seq<Column>, escape: Value -> string, k: string)
    ensures Distinct(Keys(RowOf(rec, cols, escape)))
    ensures k in Keys(RowOf(rec, cols, escape)) <==> k in Names(cols)
  {
    if cols != [] {
      var init := cols[..|cols| - 1];
      var col := cols[|cols| - 1];
      RowOfKeys(rec, init, escape, k);
      RowOfKeys(rec, init, escape, col.options.name);
      NamesInit(cols);
    }
  }

  /**
   * Under the output name of column `j`, the row holds column `j`'s cell when no later column
   * has the same name (a later one overwrites it).
   */
  lemma {:induction false} RowOfLookup(rec: Record, cols: seq<Column>, escape: Value -> string, j: int)
    requires 0 <= j < |cols|
    requires forall j' :: j < j' < |cols| ==> cols[j'].options.name != cols[j].options.name
    ensures Lookup(RowOf(rec, cols, escape), cols[j].options.name) == Some(Cell(rec, cols[j], escape))
  {
    if j < |cols| - 1 {
      var init := cols[..|cols| - 1];
      assert init[j] == cols[j];
      RowOfLookup(rec, init, escape, j);
    }
  }

  /** With distinct output names, a row has exactly one entry per column, in column order. */
  lemma {:induction false} RowOfDistinctNames(rec: Record, cols: seq<Column>, escape: Value -> string)
    requires Distinct(Names(cols))
    ensures RowOf(rec, cols, escape) == Entries(rec, cols, escape)
  {
    if cols != [] {
      var init := cols[..|cols| - 1];
      var col := cols[|cols| - 1];
      NamesInit(cols);
      forall i, j | 0 <= i < j < |init| ensures Names(init)[i] != Names(init)[j] {
        assert Names(init)[i] == Names(cols)[i] && Names(init)[j] == Names(cols)[j];
      }
      RowOfDistinctNames(rec, init, escape);
      RowOfKeys(rec, init, escape, col.options.name);
      assert col.options.name !in Names(init) by {
        forall i | 0 <= i < |init| ensures Names(init)[i] != col.options.name {
          assert Names(cols)[i] == Names(init)[i];
          assert Names(cols)[|cols| - 1] == col.options.name;
        }
      }
      assert Entries(rec, cols, escape) == Entries(rec, init, escape) + [Entry(col.options.name, Cell(rec, col, escape))];
    }
  }

  /** Columns built with default options are keyed by their labels, each showing that attribute. */
  lemma DefaultColumnsKeyedByLabel(rec: Record, columnLabels: seq<string>, escape: Value -> string)
    requires Distinct(columnLabels)
    ensures var cols := seq(|columnLabels|, i requires 0 <= i < |columnLabels| => BuildColumnConfig(columnLabels[i], None));
      var row := RowOf(rec, cols, escape);
      && |row| == |columnLabels|
      && forall i :: 0 <= i < |columnLabels| ==> row[i].key == columnLabels[i] && row[i].cell == Cell(rec, cols[i], escape)
  {
    var cols := seq(|columnLabels|, i requires 0 <= i < |columnLabels| => BuildColumnConfig(columnLabels[i], None));
    assert Names(cols) == columnLabels;
    RowOfDistinctNames(rec, cols, escape);
  }

  /** One more column puts one more property into the row. */
  lemma RowOfPrefix(rec: Record, cols: seq<Column>, i: int, escape: Value -> string)
    requires 0 <= i < |cols|
    ensures RowOf(rec, cols[..i + 1], escape) == Put(RowOf(rec, cols[..i], escape), cols[i].options.name, Cell(rec, cols[i], escape))
  {
    assert cols[..i + 1][..i] == cols[..i];
  }

  /** The `for` loop of `_translateData` that fills one row object (index.js:420-429). */
  method BuildRow(rec: Record, columnConfigs: seq<Column>, escape: Value -> string) returns (row: Row)
    ensures row == RowOf(rec, columnConfigs, escape)
  {
    row := [];
    for i := 0 to |columnConfigs|
      invariant row == RowOf(rec, columnConfigs[..i], escape)
    {
      var columnConfig := columnConfigs[i];
      var data := Or(Attribute(rec, columnConfig.columnLabel), Str(""));
      if data.Str? {
        data := Str(escape(Attribute(rec, columnConfig.columnLabel)));
      }
      assert data == Cell(rec, columnConfig, escape);
      RowOfPrefix(rec, columnConfigs, i, escape);
      row := Put(row, columnConfig.options.name, data);
    }
    assert columnConfigs[..|columnConfigs|] == columnConfigs;
  }

  /** `id => collection.get(id)` finds a record. */
  function HasRecord(collection: map<Id, Record>): Id -> bool {
    (id: Id) => id in collection
  }

  /** The ids of `ids` that have a record, in id-list order. */
  function Present(ids: seq<Id>, collection: map<Id, Record>): seq<Id> {
    Filter(ids, HasRecord(collection))
  }

  /** `_translateData(ids)`: the row of every id that has a record, in id-list order (`_.compact` drops the rest). */
  function Translate(ids: seq<Id>, collection: map<Id, Record>, cols: seq<Column>, escape: Value -> string): (rows: seq<Row>)
    ensures |rows| <= |ids|
  {
    if ids == [] then []
    else
      var id := ids[|ids| - 1];
      Translate(ids[..|ids| - 1], collection, cols, escape)
        + (if id in collection then [RowOf(collection[id], cols, escape)] else [])
  }

  /** The rows are those of the ids that have a record, one each, in id-list order. */
  lemma {:induction false} TranslateFollowsPresent(ids: seq<Id>, collection: map<Id, Record>, cols: seq<Column>, escape: Value -> string)
    ensures var rows := Translate(ids, collection, cols, escape);
      var present := Present(ids, collection);
      && |rows| == |present|
      && forall i :: 0 <= i < |present| ==> present[i] in collection && rows[i] == RowOf(collection[present[i]], cols, escape)
  {
    if ids != [] {
      TranslateFollowsPresent(ids[..|ids| - 1], collection, cols, escape);
    }
  }

  /** Missing ids are dropped, not padded: at most one row per id, exactly one each when every id has a record. */
  lemma {:induction false} TranslateCount(ids: seq<Id>, collection: map<Id, Record>, cols: seq<Column>, escape: Value -> string)
    ensures |Translate(ids, collection, cols, escape)| <= |ids|
    ensures |Translate(ids, collection, cols, escape)| == |ids| <==> forall i :: 0 <= i < |ids| ==> ids[i] in collection
  {
    TranslateFollowsPresent(ids, collection, cols, escape);
    FilterKeepsAll(ids, HasRecord(collection));
  }

  /** Translating a concatenated id list gives the rows of the first part, then those of the second. */
  lemma {:induction false} TranslateAppend(a: seq<Id>, b: seq<Id>, collection: map<Id, Record>, cols: seq<Column>, escape: Value -> string)
    ensures Translate(a + b, collection, cols, escape) == Translate(a, collection, cols, escape) + Translate(b, collection, cols, escape)
  {
    if b == [] {
      assert a + b == a;
    } else {
      var init, id := b[..|b| - 1], b[|b| - 1];
      assert (a + b)[..|a + b| - 1] == a + init;
      assert (a + b)[|a + b| - 1] == id;
      var tail := if id in collection then [RowOf(collection[id], cols, escape)] else [];
      assert Translate(b, collection, cols, escape) == Translate(init, collection, cols, escape) + tail;
      assert Translate(a + b, collection, cols, escape) == Translate(a + init, collection, cols, escape) + tail;
      TranslateAppend(a, init, collection, cols, escape);
    }
  }

  /** Ids [7, 3, 9] with records for 7 and 9 only: the rows of 7 and 9, in that order. */
  lemma TranslateExample(r7: Record, r9: Record, cols: seq<Column>, escape: Value -> string)
    ensures Translate([7, 3, 9], map[7 := r7, 9 := r9], cols, escape)
         == [RowOf(r7, cols, escape), RowOf(r9, cols, escape)]
  {
    var collection := map[7 := r7, 9 := r9];
    var ids := [7, 3, 9];
    assert ids[..2] == [7, 3] && ids[..2][..1] == [7] && ids[..2][..1][..0] == [];
    assert Translate([7], collection, cols, escape) == [RowOf(r7, cols, escape)];
    assert Translate([7, 3], collection, cols, escape) == [RowOf(r7, cols, escape)];
  }
}
