/**
 * The view's multi-column sort history (`_updateColumnSortOrdering`, index.js:335-346).
 *
 * DataTables reports only the ordering of the current request; the view keeps every column the
 * user has sorted by, most recent first, so that older sorts act as tie-breaks.
 */
module SortHistory {
  import opened Seqs

  datatype Direction = Asc | Desc

  /** One `{column, dir}` clause of a DataTables ordering; `column` is an index into the column list. */
  datatype SortClause = SortClause(column: int, dir: Direction)

  /** `order.map(o => o.column)`. */
  function ColumnList(order: seq<SortClause>): (cols: seq<int>)
    ensures |cols| == |order|
  {
    seq(|order|, i requires 0 <= i < |order| => order[i].column)
  }

  /** The test `_.reject` negates: a clause survives when its column is not in `columnList`. */
  function Survives(columnList: seq<int>): SortClause -> bool {
    (c: SortClause) => c.column !in columnList
  }

  /** The clauses of `history` whose column the incoming `order` does not mention, in history order. */
  function Survivors(history: seq<SortClause>, order: seq<SortClause>): (survivors: seq<SortClause>)
    ensures |survivors| <= |history|
    ensures forall c :: c in survivors ==> c in history && c.column !in ColumnList(order)
  {
    FilterSound(history, Survives(ColumnList(order)));
    Filter(history, Survives(ColumnList(order)))
  }

  /** The new history: the incoming ordering first, then the surviving older clauses. */
  function Merge(history: seq<SortClause>, order: seq<SortClause>): (merged: seq<SortClause>)
    ensures |order| <= |merged| <= |order| + |history|
    ensures merged[..|order|] == order
  {
    order + Survivors(history, order)
  }

  /** No two clauses sort by the same column. */
  ghost predicate DistinctColumns(h: seq<SortClause>) {
    forall i, j :: 0 <= i < j < |h| ==> h[i].column != h[j].column
  }

  lemma InColumnList(order: seq<SortClause>, i: int)
    requires 0 <= i < |order|
    ensures order[i].column in ColumnList(order)
  {
    assert ColumnList(order)[i] == order[i].column;
  }

  /**
   * A clause is in the merged history exactly when it is an incoming clause, or an old clause
   * whose column the incoming ordering does not mention; so for a column of the incoming
   * ordering, its old direction is gone.
   */
  lemma MergeMembers(history: seq<SortClause>, order: seq<SortClause>, c: SortClause)
    ensures c in Merge(history, order) <==> c in order || (c in history && c.column !in ColumnList(order))
    ensures c in Merge(history, order) && c.column in ColumnList(order) ==> c in order
  {
    FilterMember(history, Survives(ColumnList(order)), c);
  }

  /** Merging splits over the history: the surviving older clauses keep their relative order. */
  lemma MergeKeepsOrder(h1: seq<SortClause>, h2: seq<SortClause>, order: seq<SortClause>)
    ensures Merge(h1 + h2, order) == Merge(h1, order) + Survivors(h2, order)
  {
    FilterAppend(h1, h2, Survives(ColumnList(order)));
  }

  /** A single old clause survives exactly when its column is not in the incoming ordering. */
  lemma SurvivorsOfOne(c: SortClause, order: seq<SortClause>)
    ensures Survivors([c], order) == if c.column in ColumnList(order) then [] else [c]
  {
    assert [c][..0] == [];
  }

  /** Applying the same ordering twice gives the same history as applying it once. */
  lemma MergeIdempotent(history: seq<SortClause>, order: seq<SortClause>)
    ensures Merge(Merge(history, order), order) == Merge(history, order)
  {
    var keep := Survives(ColumnList(order));
    var s := Survivors(history, order);
    FilterAppend(order, s, keep);
    forall i | 0 <= i < |order| ensures !keep(order[i]) {
      InColumnList(order, i);
    }
    FilterDropsAll(order, keep);
    FilterIdempotent(history, keep);
    assert Survivors(Merge(history, order), order) == Filter(order, keep) + Filter(s, keep) == s;
  }

  lemma {:induction false} FilterDistinctColumns(h: seq<SortClause>, keep: SortClause -> bool)
    requires DistinctColumns(h)
    ensures DistinctColumns(Filter(h, keep))
  {
    if h != [] {
      var init := h[..|h| - 1];
      var last := h[|h| - 1];
      FilterDistinctColumns(init, keep);
      var f := Filter(init, keep);
      forall k | 0 <= k < |f| ensures f[k].column != last.column {
        FilterMember(init, keep, f[k]);
        var m :| 0 <= m < |init| && init[m] == f[k];
        assert h[m] == init[m];
      }
    }
  }

  /** A history without repeated columns stays so when an ordering without repeated columns is merged in. */
  lemma MergeDistinct(history: seq<SortClause>, order: seq<SortClause>)
    requires DistinctColumns(history) && DistinctColumns(order)
    ensures DistinctColumns(Merge(history, order))
  {
    var keep := Survives(ColumnList(order));
    var s := Survivors(history, order);
    FilterDistinctColumns(history, keep);
    var m := Merge(history, order);
    forall i, j | 0 <= i < j < |m| ensures m[i].column != m[j].column {
      if j >= |order| && i < |order| {
        assert m[j] == s[j - |order|];
        FilterMember(history, keep, s[j - |order|]);
        InColumnList(order, i);
      } else if i >= |order| {
        assert m[i] == s[i - |order|] && m[j] == s[j - |order|];
      }
    }
  }

  /** The merged history sorts by exactly the columns of the incoming ordering and of the old history. */
  lemma MergeColumns(history: seq<SortClause>, order: seq<SortClause>, col: int)
    ensures col in ColumnList(Merge(history, order)) <==> col in ColumnList(order) || col in ColumnList(history)
  {
    var m := Merge(history, order);
    var keep := Survives(ColumnList(order));
    if col in ColumnList(m) {
      var k :| 0 <= k < |m| && ColumnList(m)[k] == col;
      MergeMembers(history, order, m[k]);
      if m[k] in history && m[k] !in order {
        var p :| 0 <= p < |history| && history[p] == m[k];
        InColumnList(history, p);
      } else {
        var p :| 0 <= p < |order| && order[p] == m[k];
        InColumnList(order, p);
      }
    }
    if col in ColumnList(order) {
      var p :| 0 <= p < |order| && ColumnList(order)[p] == col;
      assert m[p] == order[p];
      InColumnList(m, p);
    } else if col in ColumnList(history) {
      var p :| 0 <= p < |history| && ColumnList(history)[p] == col;
      MergeMembers(history, order, history[p]);
      var q :| 0 <= q < |m| && m[q] == history[p];
      InColumnList(m, q);
    }
  }

  /** A history [column 2 descending, column 0 ascending] and a click on column 0 descending. */
  lemma MergePriorityExample()
    ensures Merge([SortClause(2, Desc), SortClause(0, Asc)], [SortClause(0, Desc)])
         == [SortClause(0, Desc), SortClause(2, Desc)]
  {
    var h := [SortClause(2, Desc), SortClause(0, Asc)];
    var o := [SortClause(0, Desc)];
    assert ColumnList(o) == [0];
    assert h[..1] == [SortClause(2, Desc)];
    assert h[..1][..0] == [];
  }
}
