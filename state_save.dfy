/**
 * The part of the DataTables state-save hook that is pure table logic: before the saved state is
 * stored, every column's own search string is cleared (index.js:269-274).
 */
module StateSave {

  /** A column's saved search settings, as DataTables saves them. */
  datatype SearchState = SearchState(search: string, smart: bool, regex: bool, caseInsensitive: bool)

  /** One column of the saved DataTables state. */
  datatype ColumnState = ColumnState(visible: bool, search: SearchState)

  /** `column.search.search = ""`: the search string is emptied and every other setting kept. */
  function ClearSearch(c: ColumnState): (r: ColumnState)
    ensures r.search.search == ""
    ensures r.visible == c.visible
    ensures r.search.smart == c.search.smart && r.search.regex == c.search.regex
    ensures r.search.caseInsensitive == c.search.caseInsensitive
  {
    c.(search := c.search.(search := ""))
  }

  /** The loop of `fnStateSaveCallback` over `data.columns`, clearing each column in place. */
  method ClearColumnSearches(columns: array<ColumnState>)
    modifies columns
    ensures forall i :: 0 <= i < columns.Length ==> columns[i] == ClearSearch(old(columns[i]))
  {
    for i := 0 to columns.Length
      invariant forall k :: 0 <= k < i ==> columns[k] == ClearSearch(old(columns[k]))
      invariant forall k :: i <= k < columns.Length ==> columns[k] == old(columns[k])
    {
      columns[i] := ClearSearch(columns[i]);
    }
  }
}
