# BrecTableView data logic, in Dafny

`BrecTableView` (torso-brec, `index.js`) is a Backbone/Torso view that connects a server-side
DataTables grid to a server that lists one page of record ids, and to a local collection that
caches the records. This project models the view's data logic and proves properties of it:

- **Sort history** (`SortHistory`). `_updateColumnSortOrdering` keeps a list of `{column, dir}`
  clauses. The incoming ordering goes first, followed by the old clauses on every other column.
  The request's ordering is then overwritten with a copy of that list.
- **Row translation** (`Translation`). `_buildColumnConfig` builds the column list. `_translateData`
  turns an ordered id list into row objects: ids without a record are dropped, and each row gets
  one property per column, keyed by the column's `options.name`, in column order (the model keeps
  every key in insertion order; see "Left out" for the keys JavaScript reorders). The cell
  rule follows the code exactly: `model.get(label) || ''`, and when that is a string, the escape
  function is applied to the attribute *as read*. A falsy attribute therefore becomes
  `escape(attribute)`. That is `''` for `undefined`, `null` and `''` when the escape function maps
  those to `''`, as Handlebars does (`CellOfEmpty`). A falsy `0` or `false` reaches the escape
  function unchanged.
- **The view** (`BrecTable`). `getSearchCriteria` is a right-biased map union. `_prepareData`
  builds the response. `_initializeAndGetColumnConfig` memoises the column list. `updateDOM`
  runs the one-time set-up only on its first call. `_requestData` merges the sort history, stores
  the parameters without `draw` (starting an id fetch when they changed) and answers DataTables
  at once. `_fetchDataTableIds` with its `done`/`fail`/`always` callbacks sets the view-state
  flags and the stored id list.
- **Saved state** (`StateSave`). `fnStateSaveCallback` clears each column's search string.

The view is a class whose fields are the view's own state and the `dataTable.*` view-state
properties. Its methods change them as the JavaScript does. The pure parts are functions, and the
lemmas are proved about them.

Two view-state listeners are modelled as direct calls (`SetParams`, `SetSuccessServerRetrieval`).
They fire only when the value actually changes, as Backbone change events do. The code relies
on this at index.js:300-302: it deletes `draw` so that a redraw with unchanged parameters does not
start a new fetch. One consequence is that two successful fetches in a row call the success hook
only once.

Where the source's own doc comments and its code differ, the model follows the code:

- `_requestData` does not wait for a fetch. It answers from the id list that an *earlier* fetch
  stored (index.js:305-307). There is no step that waits for the cache to resolve the ids.
- The doc comment of `_requestData` (index.js:289-291) says that an error clears the table. The
  doc comment of `_prepareData` (index.js:372) says its result is null after an error. The code
  does neither: a failed fetch keeps the stored id list (index.js:137-139). Later requests are
  answered from the last successful page, not from an empty one. The empty page with zero counts
  appears only while no fetch has ever succeeded.
- A falsy non-string attribute is passed to the escape function unchanged. It is not replaced
  by `''` (index.js:423-426).

## Model

| member | source | states |
|---|---|---|
| Values.Truthy | index.js:379-379 | arrays and objects are always truthy, even empty; `undefined`, `null`, `false`, `0` and `''` never are |
| Values.Or | index.js:423-423 | `a \|\| b` is one of its operands, and it is truthy exactly when either operand is |
| Seqs.Filter | index.js:340-342 | filtering never lengthens the list |
| Seqs.FilterAppend | index.js:340-342 | filtering a concatenation filters each part, so the survivors keep their relative order |
| Seqs.FilterMember | index.js:340-342 | an element survives exactly when it was in the input and passes the test |
| Seqs.FilterSound | index.js:340-342 | every survivor was in the input and passes the test |
| Seqs.FilterKeepsAll | index.js:411-432 | nothing is dropped exactly when every element passes, in both directions; then the result is the input |
| Seqs.FilterDropsAll | index.js:340-342 | when no element passes, nothing survives |
| Seqs.FilterIdempotent | index.js:340-342 | filtering twice with the same test is filtering once |
| SortHistory.ColumnList | index.js:336-338 | the column list has one column per clause of the ordering |
| SortHistory.Survivors | index.js:340-342 | `_.reject` keeps old clauses only, never more of them, and only those on a column the ordering does not mention |
| SortHistory.Merge | index.js:335-346 | the new history starts with the incoming ordering and is no longer than the ordering plus the old history |
| SortHistory.MergeMembers | index.js:340-344 | a clause is in the new history exactly when it is incoming, or old and on a column the ordering does not mention; for an incoming column, only the incoming clause remains |
| SortHistory.MergeKeepsOrder | index.js:340-344 | the surviving old clauses keep their relative order (merging splits over the old history) |
| SortHistory.SurvivorsOfOne | index.js:340-342 | a single old clause survives exactly when its column is not in the incoming ordering |
| SortHistory.MergeIdempotent | index.js:336-345 | applying the same ordering twice gives the same history as applying it once |
| SortHistory.MergeDistinct | index.js:340-344 | with no repeated column in the old history or in the ordering, the new history has no repeated column |
| SortHistory.MergeColumns | index.js:336-344 | the new history sorts by exactly the columns of the ordering and of the old history |
| SortHistory.MergePriorityExample | index.js:335-346 | history [2 desc, 0 asc] with incoming [0 desc] becomes [0 desc, 2 desc] |
| Translation.BuildColumnConfig | index.js:358-363 | the column keeps its label; given options are used as they are, otherwise both `name` and `data` are the label |
| Translation.Attribute | index.js:423-423 | a missing attribute is falsy, so it takes the `\|\| ''` branch; a truthy attribute is the one stored in the record |
| Translation.Cell | index.js:423-427 | a truthy string is escaped; a falsy attribute becomes the escape of the attribute as read; any other truthy value passes unchanged |
| Translation.CellOfEmpty | index.js:423-427 | when the escape function renders `undefined`, `null` and `''` as `''`, a missing, null or empty attribute gives the empty cell `''` |
| Translation.Put | index.js:428-428 | assigning a property overwrites an existing key in place or appends a new key; other keys keep their values |
| Translation.RowOf | index.js:420-429 | the row object has at most one property per column, and at least one when there are columns |
| Translation.RowOfPrefix | index.js:420-429 | each further column assigns its cell under its name to the row built so far |
| Translation.RowOfKeys | index.js:420-429 | a row has no repeated key, and its keys are exactly the output names of the columns |
| Translation.RowOfLookup | index.js:420-429 | under a column's name the row holds that column's cell, unless a later column has the same name |
| Translation.RowOfDistinctNames | index.js:420-429 | with distinct output names, a row has exactly one entry per column, keyed by its name, in column order |
| Translation.DefaultColumnsKeyedByLabel | index.js:358-363 | columns built with default options give rows keyed by the labels, in column order |
| Translation.BuildRow | index.js:420-429 | the loop builds exactly the row object that the column-by-column definition describes |
| Translation.Translate | index.js:411-432 | `_translateData` never gives more rows than ids |
| Translation.TranslateFollowsPresent | index.js:411-432 | the rows are those of the ids that have a record, one each, in id-list order |
| Translation.TranslateCount | index.js:411-432 | at most one row per id; exactly one per id if and only if every id has a record |
| Translation.TranslateAppend | index.js:411-432 | translating a concatenated id list gives the rows of the first part, then those of the second |
| Translation.TranslateExample | index.js:411-432 | ids [7, 3, 9] with records for 7 and 9 only give the rows of 7 and 9, in that order |
| BrecTable.GetSearchCriteria | index.js:70-73 | the keys are those of both maps; a table-parameter key wins; keys only in the additional criteria keep their value |
| BrecTable.Prepare | index.js:375-390 | `draw` is echoed and total equals filtered; with no stored answer, zero counts and no rows; otherwise the full list size and the translated ids |
| BrecTable.PreparedRowCount | index.js:375-390 | a prepared page has at most one row per listed id, and one each exactly when every id has a record |
| BrecTable.RequestObject | index.js:297-297 | the request DataTables passes carries its draw counter and its ordering |
| BrecTable.RequestParams.constructor | index.js:297-297 | a request holds the draw counter, the ordering and the other properties it is given |
| BrecTable.CloneWithoutDrawCounter | index.js:299-302 | the clone with `draw` deleted equals the stored form of the request |
| BrecTable.ParamsWithoutDraw | index.js:299-302 | the stored parameters have no `draw`, carry the merged ordering and keep every other property |
| BrecTable.CloneWithoutDraw | index.js:299-302 | cloning the request and deleting `draw` gives the stored form whatever the draw counter |
| BrecTable.BrecTableView.constructor | index.js:83-96 | the column list is taken from `columnInit` at once; the history is empty and no fetch has run |
| BrecTable.BrecTableView.InitializeAndGetColumnConfig | index.js:320-325 | a memoised column list is returned unchanged; otherwise `columnInit`'s list is stored and returned |
| BrecTable.BrecTableView.UpdateColumnSortOrdering | index.js:335-346 | the history becomes the merge of the old history and the incoming ordering; the request's ordering becomes a copy of it; distinct columns are kept |
| BrecTable.BrecTableView.TranslateData | index.js:409-433 | the rows equal the translation of the id list with the memoised columns, which are now stored |
| BrecTable.BrecTableView.PrepareData | index.js:375-390 | the response equals `Prepare` of the draw counter and the given answer; columns are memoised only when there is an answer |
| BrecTable.BrecTableView.FetchDataTableIds | index.js:122-132 | the fetch is marked running, and the additional criteria merged with the stored parameters are posted |
| BrecTable.BrecTableView.SetSuccessServerRetrieval | index.js:88-94 | the flag is set; a change to true calls the success hook once, and that call sees the id list stored at that moment; a change to false calls the error hook once |
| BrecTable.BrecTableView.FetchSettled | index.js:133-142 | a success stores the server's answer and a failure keeps the old one; the success hook runs before the new answer is stored and sees the previous list; the fetch is over |
| BrecTable.BrecTableView.SetParams | index.js:95-95 | the parameters are stored, and a fetch starts exactly when they changed |
| BrecTable.BrecTableView.RequestData | index.js:297-309 | the history is merged, the parameters are stored without `draw`, a fetch starts only when they changed, and the answer is prepared from the id list stored before the call; nothing else changes |
| BrecTable.BrecTableView.UpdateDOM | index.js:104-114 | the first call sets `DOMDrawnOnce` and runs the set-up once; later calls only reload the grid |
| BrecTable.FailedFirstFetch | index.js:133-142 | a fresh view answers draw 3 with zero counts and no rows, and a failed fetch calls the error hook once and the success hook never |
| BrecTable.RedrawStartsNoFetch | index.js:297-303 | for any view, ordering and request properties, a second request that differs only in `draw` starts no fetch, and the first starts at most one |
| BrecTable.RedrawPostsOnce | index.js:297-303 | an example: on a fresh view, requests with draw 1 and 2 and ordering [0 asc] post the id request once |
| BrecTable.AnswersFromStoredIds | index.js:305-307 | after a successful fetch, a request is answered with the stored page's size and its translated ids |
| BrecTable.TranslatesStoredRow | index.js:297-309 | an example: a request starts the fetch; once it stores the ids [7, 3], the next request with a default `title` column and a record for 7 only is answered with one row whose `title` holds the escaped attribute |
| BrecTable.StoredRowTranslated | index.js:409-433 | ids [7, 3] with a record for 7 only translate, under one default `title` column, to the single escaped row of 7 |
| BrecTable.HookSeesPreviousList | index.js:133-135 | the first success hook sees no stored list, a later one sees the previous page, and the view ends up holding the newest page |
| BrecTable.RenderedTwice | index.js:104-114 | three `updateDOM` calls run the set-up once and reload twice |
| StateSave.ClearSearch | index.js:273-273 | a column's search string is emptied and its other settings kept |
| StateSave.ClearColumnSearches | index.js:272-274 | every column of the saved state is cleared in place |

## Left out

- The UMD loader (index.js:1-9) is not modelled: it is module plumbing.
- The template render (`View.prototype.updateDOM`) is not modelled. Neither are the DataTables,
  ColVis, ColReorder and FixedHeader widgets and their teardown (`_brecTableInit`'s options,
  `_brecWidgetsInit`, `_brecWidgetsDestroy`, `_detached`, `_updateFixedHeaderPos`). These are DOM
  widgets of libraries outside this file. Their effect is counted: `dataTableBuilt`,
  `initializations`, `reloads`.
- Two calls into `_requestData` are not modelled: the initial draw that DataTables makes when it
  is built, and the call that `ajax.reload` makes (index.js:152, counted by `UpdateDOM` as
  `reloads`). Both are made by DataTables itself.
- The `$.ajax` transport (index.js:126-142) is split into two parts: the posted body (`postedCriteria`)
  and an abstract outcome handed to `FetchSettled`. JSON encoding, the URL and the timing of the
  reply are not modelled.
- The bodies of the host hooks `successfulServerRetrieval` and `errorServerRetrieval` are host code.
  The model counts how many times each is called. For the success hook it also records the id
  list stored when the hook runs. The flag is set before the list (index.js:134-135), so the hook
  sees the previous list. A hook that redraws synchronously (render, then `updateDOM`, then
  `ajax.reload`, then `_requestData`) is therefore answered from the previous list. The model
  does not run such a redraw itself. `columnInit` and `additionalSearchCriteria` are
  fixed values given to the constructor. A `columnInit` that returns `undefined` (the default no-op)
  is not modelled.
- `Handlebars.Utils.escapeExpression` is a foreign library. It is the parameter `escape`, and
  nothing is assumed about it.
- `fnStateLoadCallback` and the `localStorage`, `location.pathname` and JSON parts of
  `fnStateSaveCallback` are not modelled. These are browser storage with swallowed errors. The
  copy of the sort history into the saved state is left out too. Only the loop that clears the
  column searches is modelled.
- `parseInt(tableParams.draw)` is not modelled on arbitrary strings: the draw counter is an integer.
- JavaScript numbers are integers here. Floating point, `NaN` and `-0` are not modelled.
- Column options other than `name` and `data` are opaque to this file and not modelled. So are
  options given without a `name`.
- Translation.Put / Translation.RowOf: a row keeps its properties in insertion order. JavaScript
  lists integer-like keys (`"1"`, `"2020"`) first, in ascending numeric order, before the other
  keys in insertion order. For columns named `b` then `1`, the model gives the order `b`, `1`; the
  object's key order is `1`, `b`. The model does not capture that reordering. It is a property of
  JavaScript objects, not of this code.
- The model does not capture which objects are shared between the sort history, the request's
  ordering and the stored parameters: all three are values. The source copies them (`slice`,
  `_.clone`) before storing, so nothing observable depends on sharing.
