/**
 * `BrecTableView` (index.js:20-435): the view state that connects a server-side DataTables grid
 * to a server listing one page of record ids and a local cache of the records.
 */
module BrecTable {
  import opened Values
  import opened SortHistory
  import opened Translation

  /** The server's answer: the ids of the requested page, in order, and the full number of matches. */
  datatype IdsPage = IdsPage(list: seq<Id>, fullListSize: int)

  /** What the view hands to DataTables' callback. */
  datatype TableContent = TableContent(draw: int, recordsTotal: int, recordsFiltered: int, data: seq<Row>)

  /** How the id request ended: `done` with the server's answer, or `fail`. */
  datatype FetchOutcome = Done(response: IdsPage) | Failed

  function DirName(d: Direction): string {
    match d
    case Asc => "asc"
    case Desc => "desc"
  }

  /** An ordering as the request object carries it: an array of `{column, dir}` objects. */
  function OrderValue(order: seq<SortClause>): Value {
    Arr(seq(|order|, i requires 0 <= i < |order| =>
      Obj(map["column" := Num(order[i].column), "dir" := Str(DirName(order[i].dir))])))
  }

  /**
   * `getSearchCriteria`: `_.extend({}, additional, tableParams)`. A key of the table parameters
   * wins over the same key of the additional criteria; keys only in the additional criteria stay.
   */
  function GetSearchCriteria(additional: map<string, Value>, tableParams: map<string, Value>): (criteria: map<string, Value>)
    ensures criteria.Keys == additional.Keys + tableParams.Keys
    ensures forall k :: k in tableParams ==> criteria[k] == tableParams[k]
    ensures forall k :: k in additional && k !in tableParams ==> criteria[k] == additional[k]
  {
    additional + tableParams
  }

  /**
   * `_prepareData`: the draw counter echoed, equal total and filtered counts, and either the
   * translated page or, with no server answer, no rows and zero counts.
   */
  function Prepare(draw: int, result: Option<IdsPage>, collection: map<Id, Record>, cols: seq<Column>, escape: Value -> string): (content: TableContent)
    ensures content.draw == draw
    ensures content.recordsTotal == content.recordsFiltered
    ensures result.None? ==> content.recordsTotal == 0 && content.data == []
    ensures result.Some? ==> content.recordsTotal == result.value.fullListSize
    ensures result.Some? ==> content.data == Translate(result.value.list, collection, cols, escape)
  {
    match result
    case None => TableContent(draw, 0, 0, [])
    case Some(page) =>
      TableContent(draw, page.fullListSize, page.fullListSize, Translate(page.list, collection, cols, escape))
  }

  /**
   * A prepared page never has more rows than the server listed ids, and has one per id exactly
   * when every listed id has a record; the counts still report the server's full size.
   */
  lemma PreparedRowCount(draw: int, page: IdsPage, collection: map<Id, Record>, cols: seq<Column>, escape: Value -> string)
    ensures var content := Prepare(draw, Some(page), collection, cols, escape);
      && content.recordsTotal == content.recordsFiltered == page.fullListSize
      && |content.data| <= |page.list|
      && (|content.data| == |page.list| <==> forall i :: 0 <= i < |page.list| ==> page.list[i] in collection)
  {
    TranslateCount(page.list, collection, cols, escape);
  }

  /** The parameter object DataTables passes to the view's `ajax` function, as one object. */
  function RequestObject(draw: int, order: seq<SortClause>, fields: map<string, Value>): (request: map<string, Value>)
    ensures request.Keys == fields.Keys + {"draw", "order"}
    ensures request["draw"] == Num(draw) && request["order"] == OrderValue(order)
    ensures forall k :: k in fields && k != "draw" && k != "order" ==> request[k] == fields[k]
  {
    fields["draw" := Num(draw)]["order" := OrderValue(order)]
  }

  /** The stored form of a request: every property except the draw counter. */
  function ParamsWithoutDraw(order: seq<SortClause>, fields: map<string, Value>): (m: map<string, Value>)
    ensures "draw" !in m
    ensures m.Keys == fields.Keys - {"draw"} + {"order"}
    ensures m["order"] == OrderValue(order)
    ensures forall k :: k in fields && k != "draw" && k != "order" ==> m[k] == fields[k]
  {
    (fields - {"draw"})["order" := OrderValue(order)]
  }

  /**
   * `_.clone(tableParams)` followed by `delete draw` (index.js:299-302) gives the stored form,
   * whatever the draw counter: requests that differ only in it store equal parameters.
   */
  lemma CloneWithoutDraw(draw: int, order: seq<SortClause>, fields: map<string, Value>)
    ensures RequestObject(draw, order, fields) - {"draw"} == ParamsWithoutDraw(order, fields)
  {
  }

  /** The parameter object DataTables passes to the view's `ajax` function. */
  class RequestParams {
    /** The draw counter, a number that DataTables increments on every request. */
    var draw: int
    var order: seq<SortClause>
    /** Every other request property (`start`, `length`, `columns`, `search`, ...). */
    var fields: map<string, Value>

    constructor (draw: int, order: seq<SortClause>, fields: map<string, Value>)
      ensures this.draw == draw && this.order == order && this.fields == fields
    {
      this.draw := draw;
      this.order := order;
      this.fields := fields;
    }
  }

  /** `_.clone(tableParams)` then `delete tableParamsWithoutDrawCounter.draw` (index.js:299-302). */
  method CloneWithoutDrawCounter(tableParams: RequestParams) returns (paramsWithoutDraw: map<string, Value>)
    ensures paramsWithoutDraw == ParamsWithoutDraw(tableParams.order, tableParams.fields)
  {
    paramsWithoutDraw := RequestObject(tableParams.draw, tableParams.order, tableParams.fields);
    paramsWithoutDraw := paramsWithoutDraw - {"draw"};
    CloneWithoutDraw(tableParams.draw, tableParams.order, tableParams.fields);
  }

  class BrecTableView {
    /** What the host's `columnInit` hook returns. */
    const columnInit: seq<Column>
    /** What the host's `additionalSearchCriteria` hook returns (empty for the default no-op). */
    const additionalSearchCriteria: map<string, Value>
    /** `Handlebars.Utils.escapeExpression`. */
    const escape: Value -> string
    /** The records of the view's collection, by id. */
    var collection: map<Id, Record>

    /** The memoised column list (`this.columnConfig`). */
    var columnConfig: Option<seq<Column>>
    /** The sort history, most recently requested columns first. */
    var columnSortingOrder: seq<SortClause>

    // The view-state properties under `dataTable.`.
    var domDrawnOnce: bool
    var fetchingIds: bool
    var successServerRetrieval: Option<bool>
    var idsPartialList: Option<IdsPage>
    var params: Option<map<string, Value>>

    /** Whether `this.dataTable` exists. */
    var dataTableBuilt: bool
    /** How many times the one-time template render and widget set-up has run. */
    var initializations: nat
    /** How many `dataTable.ajax.reload` calls the view has made. */
    var reloads: nat
    /** The bodies of the id requests POSTed to the server, in order. */
    var postedCriteria: seq<map<string, Value>>
    /** How many times the `successfulServerRetrieval` and `errorServerRetrieval` hooks were called. */
    var successCalls: nat
    var errorCalls: nat
    /**
     * For each call of the success hook, the id list stored at the moment the hook ran: the hook
     * runs from inside the `set` of the flag, before the new list is stored.
     */
    var successHookSaw: seq<Option<IdsPage>>

    ghost predicate Valid()
      reads this
    {
      && (dataTableBuilt <==> domDrawnOnce)
      && initializations == (if domDrawnOnce then 1 else 0)
    }

    /** The columns `_initializeAndGetColumnConfig` yields from the current state. */
    function ConfiguredColumns(): seq<Column>
      reads this
    {
      match columnConfig
      case Some(cols) => cols
      case None => columnInit
    }

    /** The stored parameters as `this.get('dataTable.params')` reads them (`undefined` adds nothing to the criteria). */
    function StoredParams(): map<string, Value>
      reads this
    {
      match params
      case Some(p) => p
      case None => map[]
    }

    /** The constructor (index.js:83-96): the column list is taken from `columnInit` at once. */
    constructor (columnInit: seq<Column>, additionalSearchCriteria: map<string, Value>, escape: Value -> string, collection: map<Id, Record>)
      ensures Valid()
      ensures this.columnInit == columnInit && this.additionalSearchCriteria == additionalSearchCriteria
      ensures this.escape == escape && this.collection == collection
      ensures columnConfig == Some(columnInit) && columnSortingOrder == []
      ensures !domDrawnOnce && !fetchingIds && successServerRetrieval == None && idsPartialList == None && params == None
      ensures reloads == 0 && postedCriteria == [] && successCalls == 0 && errorCalls == 0 && successHookSaw == []
    {
      this.columnInit := columnInit;
      this.additionalSearchCriteria := additionalSearchCriteria;
      this.escape := escape;
      this.collection := collection;
      columnConfig := Some(columnInit);
      columnSortingOrder := [];
      domDrawnOnce, fetchingIds, dataTableBuilt := false, false, false;
      successServerRetrieval, idsPartialList, params := None, None, None;
      initializations, reloads := 0, 0;
      postedCriteria := [];
      successCalls, errorCalls := 0, 0;
      successHookSaw := [];
    }

    /** `_initializeAndGetColumnConfig`: computes the column list once and returns the memoised one after. */
    method InitializeAndGetColumnConfig() returns (columnConfigs: seq<Column>)
      modifies this`columnConfig
      ensures columnConfigs == old(ConfiguredColumns())
      ensures old(columnConfig).Some? ==> columnConfigs == old(columnConfig).value
      ensures columnConfig == Some(columnConfigs)
    {
      if columnConfig.None? {
        columnConfig := Some(columnInit);
      }
      columnConfigs := columnConfig.value;
    }

    /**
     * `_updateColumnSortOrdering`: the history becomes the incoming ordering followed by the old
     * clauses on other columns, and the request's ordering becomes a copy of that history.
     */
    method UpdateColumnSortOrdering(tableParams: RequestParams)
      modifies this`columnSortingOrder, tableParams`order
      ensures columnSortingOrder == Merge(old(columnSortingOrder), old(tableParams.order))
      ensures tableParams.order == columnSortingOrder
      ensures DistinctColumns(old(columnSortingOrder)) && DistinctColumns(old(tableParams.order)) ==>
        DistinctColumns(columnSortingOrder)
    {
      ghost var history, order := columnSortingOrder, tableParams.order;
      var columnList := ColumnList(tableParams.order);
      columnSortingOrder := Seqs.Filter(columnSortingOrder, Survives(columnList));
      columnSortingOrder := tableParams.order + columnSortingOrder;
      tableParams.order := columnSortingOrder;
      if DistinctColumns(history) && DistinctColumns(order) {
        MergeDistinct(history, order);
      }
    }

    /** `_translateData`: one row per listed id that has a record, in id-list order. */
    method TranslateData(idListOrder: seq<Id>) returns (rows: seq<Row>)
      modifies this`columnConfig
      ensures columnConfig == Some(old(ConfiguredColumns()))
      ensures rows == Translate(idListOrder, collection, old(ConfiguredColumns()), escape)
    {
      var columnConfigs := InitializeAndGetColumnConfig();
      rows := [];
      for i := 0 to |idListOrder|
        invariant columnConfig == Some(columnConfigs)
        invariant rows == Translate(idListOrder[..i], collection, columnConfigs, escape)
      {
        var modelId := idListOrder[i];
        assert idListOrder[..i + 1][..i] == idListOrder[..i];
        if modelId in collection {
          var modelAsObject := BuildRow(collection[modelId], columnConfigs, escape);
          rows := rows + [modelAsObject];
        }
      }
      assert idListOrder[..|idListOrder|] == idListOrder;
    }

    /** `_prepareData`: the response for DataTables built from a stored server answer, if any. */
    method PrepareData(draw: int, result: Option<IdsPage>) returns (content: TableContent)
      modifies this`columnConfig
      ensures content == Prepare(draw, result, collection, old(ConfiguredColumns()), escape)
      ensures columnConfig == if result.Some? then Some(old(ConfiguredColumns())) else old(columnConfig)
    {
      var translatedData := [];
      var totalRecords := 0;
      if result.Some? {
        translatedData := TranslateData(result.value.list);
        totalRecords := result.value.fullListSize;
      }
      content := TableContent(draw, totalRecords, totalRecords, translatedData);
    }

    /**
     * The synchronous part of `_fetchDataTableIds`: marks the fetch as running and POSTs the
     * search criteria built from the stored parameters.
     */
    method FetchDataTableIds()
      modifies this`fetchingIds, this`postedCriteria
      ensures fetchingIds
      ensures postedCriteria == old(postedCriteria) + [GetSearchCriteria(additionalSearchCriteria, old(StoredParams()))]
    {
      fetchingIds := true;
      var searchCriteria := GetSearchCriteria(additionalSearchCriteria, StoredParams());
      postedCriteria := postedCriteria + [searchCriteria];
    }

    /**
     * `this.set('dataTable.successServerRetrieval', successful)` with the listener of
     * index.js:88-94: a change of the value calls the success or the error hook.
     */
    method SetSuccessServerRetrieval(successful: bool)
      modifies this`successServerRetrieval, this`successCalls, this`errorCalls, this`successHookSaw
      ensures successServerRetrieval == Some(successful)
      ensures var changed := old(successServerRetrieval) != Some(successful);
        && successCalls == old(successCalls) + (if changed && successful then 1 else 0)
        && errorCalls == old(errorCalls) + (if changed && !successful then 1 else 0)
        && successHookSaw == old(successHookSaw) + (if changed && successful then [idsPartialList] else [])
    {
      if successServerRetrieval != Some(successful) {
        successServerRetrieval := Some(successful);
        if successful {
          successCalls := successCalls + 1;
          successHookSaw := successHookSaw + [idsPartialList];
        } else {
          errorCalls := errorCalls + 1;
        }
      }
    }

    /**
     * The `done`, `fail` and `always` callbacks of the id request: a success stores the server's
     * answer, a failure keeps the answer stored before; either way the fetch is over.
     */
    method FetchSettled(outcome: FetchOutcome)
      modifies this`successServerRetrieval, this`idsPartialList, this`fetchingIds, this`successCalls, this`errorCalls, this`successHookSaw
      ensures !fetchingIds
      ensures successServerRetrieval == Some(outcome.Done?)
      ensures idsPartialList == if outcome.Done? then Some(outcome.response) else old(idsPartialList)
      ensures successCalls == old(successCalls) + (if outcome.Done? && old(successServerRetrieval) != Some(true) then 1 else 0)
      ensures successHookSaw == old(successHookSaw) + (if outcome.Done? && old(successServerRetrieval) != Some(true) then [old(idsPartialList)] else [])
      ensures errorCalls == old(errorCalls) + (if outcome.Failed? && old(successServerRetrieval) != Some(false) then 1 else 0)
    {
      match outcome {
        case Done(idsPartialList') =>
          SetSuccessServerRetrieval(true);
          idsPartialList := Some(idsPartialList');
        case Failed =>
          SetSuccessServerRetrieval(false);
      }
      fetchingIds := false;
    }

    /**
     * `this.set('dataTable.params', p)` with the listener of index.js:95: when the parameters
     * change, a new id fetch starts.
     */
    method SetParams(p: map<string, Value>)
      modifies this`params, this`fetchingIds, this`postedCriteria
      ensures params == Some(p)
      ensures var changed := old(params) != Some(p);
        && fetchingIds == (changed || old(fetchingIds))
        && postedCriteria == old(postedCriteria) + (if changed then [GetSearchCriteria(additionalSearchCriteria, p)] else [])
    {
      if params != Some(p) {
        params := Some(p);
        FetchDataTableIds();
      }
    }

    /**
     * `_requestData`, the grid's `ajax` function: updates the sort history, stores the parameters
     * without the draw counter (starting a fetch when they changed) and answers at once from the
     * id list stored BEFORE this call.
     */
    method RequestData(tableParams: RequestParams) returns (content: TableContent)
      requires Valid()
      modifies this, tableParams`order
      ensures Valid()
      ensures columnSortingOrder == Merge(old(columnSortingOrder), old(tableParams.order))
      ensures tableParams.order == columnSortingOrder
      ensures params == Some(ParamsWithoutDraw(tableParams.order, tableParams.fields))
      ensures var started := old(params) != params;
        && fetchingIds == (started || old(fetchingIds))
        && postedCriteria == old(postedCriteria) + (if started then [GetSearchCriteria(additionalSearchCriteria, ParamsWithoutDraw(tableParams.order, tableParams.fields))] else [])
      ensures content == Prepare(tableParams.draw, old(idsPartialList), old(collection), old(ConfiguredColumns()), escape)
      ensures columnConfig == if old(idsPartialList).Some? then Some(old(ConfiguredColumns())) else old(columnConfig)
      ensures idsPartialList == old(idsPartialList) && successServerRetrieval == old(successServerRetrieval)
      ensures successCalls == old(successCalls) && errorCalls == old(errorCalls) && successHookSaw == old(successHookSaw)
      ensures domDrawnOnce == old(domDrawnOnce) && dataTableBuilt == old(dataTableBuilt)
      ensures initializations == old(initializations) && reloads == old(reloads)
      ensures collection == old(collection)
    {
      UpdateColumnSortOrdering(tableParams);
      var tableParamsWithoutDrawCounter := CloneWithoutDrawCounter(tableParams);
      SetParams(tableParamsWithoutDrawCounter);
      content := PrepareData(tableParams.draw, idsPartialList);
    }

    /**
     * `updateDOM`: the first call renders and builds the grid and its widgets; every later call
     * only asks the grid to reload.
     */
    method UpdateDOM()
      requires Valid()
      modifies this
      ensures Valid() && domDrawnOnce && dataTableBuilt && initializations == 1
      ensures !old(domDrawnOnce) ==> reloads == old(reloads) && columnConfig == Some(old(ConfiguredColumns()))
      ensures old(domDrawnOnce) ==> reloads == old(reloads) + 1 && columnConfig == old(columnConfig)
      ensures columnSortingOrder == old(columnSortingOrder) && params == old(params)
      ensures idsPartialList == old(idsPartialList) && successServerRetrieval == old(successServerRetrieval)
      ensures fetchingIds == old(fetchingIds) && postedCriteria == old(postedCriteria)
      ensures successCalls == old(successCalls) && errorCalls == old(errorCalls) && successHookSaw == old(successHookSaw)
      ensures collection == old(collection)
    {
      if !domDrawnOnce {
        domDrawnOnce := true;
        // _brecTableInit: the grid is built with the memoised column options.
        var columns := InitializeAndGetColumnConfig();
        dataTableBuilt := true;
        // _brecWidgetsInit: the widgets are attached once.
        initializations := initializations + 1;
      } else {
        // _reloadAndRedrawDataTable
        if dataTableBuilt {
          reloads := reloads + 1;
        }
      }
    }
  }

  /**
   * A fresh view: the first request is answered with no rows (nothing has been fetched yet) and
   * the failed fetch calls the error hook once and the success hook never.
   */
  method FailedFirstFetch(escape: Value -> string) returns (content: TableContent, successes: nat, failures: nat, posted: nat)
    ensures content == TableContent(3, 0, 0, [])
    ensures successes == 0 && failures == 1 && posted == 1
  {
    var view := new BrecTableView([], map[], escape, map[]);
    var tableParams := new RequestParams(3, [], map[]);
    content := view.RequestData(tableParams);
    view.FetchSettled(Failed);
    successes, failures, posted := view.successCalls, view.errorCalls, |view.postedCriteria|;
  }

  /**
   * Two requests that differ only in their draw counter: the first starts a fetch, the second
   * stores equal parameters and starts none; both are answered from the (empty) stored list.
   */
  method RedrawPostsOnce(escape: Value -> string) returns (first: TableContent, second: TableContent, posted: nat)
    ensures first == TableContent(1, 0, 0, []) && second == TableContent(2, 0, 0, [])
    ensures posted == 1
  {
    var order := [SortClause(0, Asc)];
    var view := new BrecTableView([], map[], escape, map[]);
    var request1 := new RequestParams(1, order, map[]);
    first := view.RequestData(request1);
    var request2 := new RequestParams(2, order, map[]);
    SurvivorsOfOne(SortClause(0, Asc), order);
    InColumnList(order, 0);
    assert Merge(order, order) == order;
    second := view.RequestData(request2);
    posted := |view.postedCriteria|;
  }

  /**
   * For any view and any request: a redraw that repeats the ordering and the other properties,
   * with only the draw counter changed, stores equal parameters and so starts no second fetch.
   */
  method RedrawStartsNoFetch(view: BrecTableView, draw1: int, draw2: int, order: seq<SortClause>, fields: map<string, Value>)
    returns (postedAfterFirst: nat, postedAfterSecond: nat)
    requires view.Valid()
    modifies view
    ensures postedAfterFirst <= old(|view.postedCriteria|) + 1
    ensures postedAfterSecond == postedAfterFirst
  {
    var request1 := new RequestParams(draw1, order, fields);
    var first := view.RequestData(request1);
    postedAfterFirst := |view.postedCriteria|;
    var request2 := new RequestParams(draw2, order, fields);
    MergeIdempotent(old(view.columnSortingOrder), order);
    var second := view.RequestData(request2);
    postedAfterSecond := |view.postedCriteria|;
  }

  /**
   * A request is answered from the id list a successful fetch stored earlier: the server's full
   * size as both counts and the rows of the listed ids that have a record.
   */
  method AnswersFromStoredIds(escape: Value -> string, collection: map<Id, Record>, ids: seq<Id>)
    returns (content: TableContent, successes: nat)
    ensures content == TableContent(2, 40, 40, Translate(ids, collection, [], escape))
    ensures successes == 1
  {
    var view := new BrecTableView([], map[], escape, collection);
    view.FetchDataTableIds();
    view.FetchSettled(Done(IdsPage(ids, 40)));
    var request := new RequestParams(2, [], map[]);
    content := view.RequestData(request);
    successes := view.successCalls;
  }

  /**
   * With one default column `title`, the stored ids [7, 3] and a record for 7 only: the answer has
   * one row, whose `title` property holds the escaped attribute.
   */
  method TranslatesStoredRow(escape: Value -> string) returns (content: TableContent)
    ensures content == TableContent(5, 2, 2, [[Entry("title", Str(escape(Str("Report"))))]])
  {
    var column := BuildColumnConfig("title", None);
    var collection := map[7 := map["title" := Str("Report")]];
    var view := new BrecTableView([column], map[], escape, collection);
    var request1 := new RequestParams(4, [], map[]);
    var first := view.RequestData(request1);
    view.FetchSettled(Done(IdsPage([7, 3], 2)));
    var request := new RequestParams(5, [], map[]);
    assert view.ConfiguredColumns() == [column];
    content := view.RequestData(request);
    StoredRowTranslated(escape, column, collection);
  }

  /** The rows of the ids [7, 3] when only 7 has a record: the one escaped `title` cell of 7. */
  lemma StoredRowTranslated(escape: Value -> string, column: Column, collection: map<Id, Record>)
    requires column == BuildColumnConfig("title", None)
    requires collection == map[7 := map["title" := Str("Report")]]
    ensures Translate([7, 3], collection, [column], escape) == [[Entry("title", Str(escape(Str("Report"))))]]
  {
    var rec := collection[7];
    assert [column][..0] == [];
    assert Cell(rec, column, escape) == Str(escape(Str("Report")));
    assert RowOf(rec, [column], escape) == [Entry("title", Str(escape(Str("Report"))))];
    assert [7, 3][..1] == [7];
    assert [7][..0] == [];
    assert Translate([7], collection, [column], escape) == [RowOf(rec, [column], escape)];
  }

  /**
   * The success hook runs before the new id list is stored: on the first successful fetch it
   * sees no list at all, and on a later one (after a failure re-arms the flag) the list of the
   * fetch before, while the view ends up holding the new list. Each fetch is started as the
   * parameters listener starts it.
   */
  method HookSeesPreviousList(escape: Value -> string, page1: IdsPage, page2: IdsPage)
    returns (sawFirst: Option<IdsPage>, sawSecond: Option<IdsPage>, stored: Option<IdsPage>)
    ensures sawFirst == None && sawSecond == Some(page1) && stored == Some(page2)
  {
    var view := new BrecTableView([], map[], escape, map[]);
    view.FetchDataTableIds();
    view.FetchSettled(Done(page1));
    sawFirst := view.successHookSaw[0];
    view.FetchDataTableIds();
    view.FetchSettled(Failed);
    view.FetchDataTableIds();
    view.FetchSettled(Done(page2));
    sawSecond := view.successHookSaw[1];
    stored := view.idsPartialList;
  }

  /** After the first `updateDOM`, further calls never re-run the one-time set-up. */
  method RenderedTwice(escape: Value -> string) returns (initializations: nat, reloads: nat)
    ensures initializations == 1 && reloads == 2
  {
    var view := new BrecTableView([], map[], escape, map[]);
    view.UpdateDOM();
    view.UpdateDOM();
    view.UpdateDOM();
    initializations, reloads := view.initializations, view.reloads;
  }
}
