/** The `admin_summary` page: a pivot of all records with one row per giver
    (주는사람), one column per (받는사람, 구분) pair, the summed quantity in
    each cell (0 where nothing was handed over), and a 합계 row of column sums. */
module Admin {
  import opened Wrappers
  import opened Order
  import opened Sheets
  import opened Quantity
  import opened Grouping
  import opened Materials


  /** The label of the row of column sums. */
  const TotalLabel := "합계"

  /** What one record contributes to the pivot: its giver, its column label
      (받는사람, 구분) and its coerced quantity. */
  datatype Fact = Fact(giver: string, column: Key, quantity: int)

  /** A pivot table: row labels, column labels and one row of cells per label. */
  datatype Pivot = Pivot(index: seq<string>, columns: seq<Key>, cells: seq<seq<int>>)

  /** The template the page renders: no permission, the "no data" message, the
      HTTP 500 a KeyError on a missing column causes, or the table. */
  datatype AdminPage = NoPermission | NoData | KeyError | Table(pivot: Pivot)

  predicate HasColumns(header: seq<string>) {
    QtyKey in header && GiverColumn in header && ReceiverColumn in header && KindKey in header
  }

  /** The three label cells are present; pandas drops the other records. */
  predicate Keyed(header: seq<string>, record: seq<string>)
    requires HasColumns(header)
  {
    Cell(header, record, GiverColumn).Some? && Cell(header, record, ReceiverColumn).Some?
    && Cell(header, record, KindKey).Some?
  }

  function FactOf(header: seq<string>, record: seq<string>): (x: Fact)
    requires HasColumns(header) && Keyed(header, record)
    ensures |x.column| == 2
  {
    Fact(Cell(header, record, GiverColumn).value,
         [Cell(header, record, ReceiverColumn).value, Cell(header, record, KindKey).value],
         CellQuantity(Cell(header, record, QtyKey)))
  }

  /** The facts of the keyed records, in sheet order. */
  function Facts(header: seq<string>, records: seq<seq<string>>): seq<Fact>
    requires HasColumns(header)
  {
    if records == [] then []
    else (if Keyed(header, records[0]) then [FactOf(header, records[0])] else []) + Facts(header, records[1..])
  }

  /** A fact is listed exactly when some keyed record produces it. */
  lemma {:induction false} FactsOfRecords(header: seq<string>, records: seq<seq<string>>, x: Fact)
    requires HasColumns(header)
    ensures x in Facts(header, records) <==>
      exists j :: 0 <= j < |records| && Keyed(header, records[j]) && FactOf(header, records[j]) == x
  {
    if records != [] {
      FactsOfRecords(header, records[1..], x);
      if exists j :: 0 <= j < |records[1..]| && Keyed(header, records[1..][j]) && FactOf(header, records[1..][j]) == x {
        var j :| 0 <= j < |records[1..]| && Keyed(header, records[1..][j]) && FactOf(header, records[1..][j]) == x;
        assert records[j + 1] == records[1..][j];
      }
      if exists j :: 0 <= j < |records| && Keyed(header, records[j]) && FactOf(header, records[j]) == x {
        var j :| 0 <= j < |records| && Keyed(header, records[j]) && FactOf(header, records[j]) == x;
        if j > 0 {
          assert records[1..][j - 1] == records[j];
        }
      }
    }
  }

  /** The summed quantity of the facts with giver `g` in column `c`. */
  function QuantityOf(fs: seq<Fact>, g: string, c: Key): int {
    if fs == [] then 0
    else (if fs[0].giver == g && fs[0].column == c then fs[0].quantity else 0) + QuantityOf(fs[1..], g, c)
  }

  /** The summed quantity of all facts in column `c`. */
  function ColumnQuantity(fs: seq<Fact>, c: Key): int {
    if fs == [] then 0
    else (if fs[0].column == c then fs[0].quantity else 0) + ColumnQuantity(fs[1..], c)
  }

  function GiverKeys(fs: seq<Fact>): (ks: seq<Key>)
    ensures |ks| == |fs| && forall i :: 0 <= i < |fs| ==> ks[i] == [fs[i].giver]
  {
    if fs == [] then [] else [[fs[0].giver]] + GiverKeys(fs[1..])
  }

  function ColumnKeys(fs: seq<Fact>): (ks: seq<Key>)
    ensures |ks| == |fs| && forall i :: 0 <= i < |fs| ==> ks[i] == fs[i].column
  {
    if fs == [] then [] else [fs[0].column] + ColumnKeys(fs[1..])
  }

  /** The quantities of column `c`, filed under their giver. */
  function CellEntries(fs: seq<Fact>, c: Key): (es: seq<Entry>)
    ensures forall i :: 0 <= i < |es| ==> es[i].key in GiverKeys(fs)
  {
    if fs == [] then []
    else
      var rest := CellEntries(fs[1..], c);
      assert forall i :: 0 <= i < |rest| ==> rest[i].key in GiverKeys(fs) by {
        assert GiverKeys(fs[1..]) == GiverKeys(fs)[1..];
      }
      (if fs[0].column == c then [Entry([fs[0].giver], fs[0].quantity)] else []) + rest
  }

  lemma {:induction false} CellEntriesSum(fs: seq<Fact>, g: string, c: Key)
    ensures SumFor(CellEntries(fs, c), [g]) == QuantityOf(fs, g, c)
    ensures Total(CellEntries(fs, c)) == ColumnQuantity(fs, c)
  {
    if fs != [] {
      CellEntriesSum(fs[1..], g, c);
      var rest := CellEntries(fs[1..], c);
      if fs[0].column == c {
        assert CellEntries(fs, c)[1..] == rest;
      } else {
        assert CellEntries(fs, c) == rest;
      }
    }
  }

  lemma SingletonLess(a: string, b: string)
    requires KeyLess([a], [b])
    ensures StrLess(a, b)
  {
    assert [a][1..] == [] && [b][1..] == [];
  }

  /** Labels of one-column keys: every key of `GiverKeys` has one field. */
  function Labels(ks: seq<Key>): (labels: seq<string>)
    requires forall i :: 0 <= i < |ks| ==> |ks[i]| == 1
    ensures |labels| == |ks| && forall i :: 0 <= i < |ks| ==> ks[i] == [labels[i]]
  {
    seq(|ks|, i requires 0 <= i < |ks| => ks[i][0])
  }

  /** Every giver key is a one-field key. */
  lemma GiverKeysAreSingletons(fs: seq<Fact>)
    ensures forall i :: 0 <= i < |SortedKeys(GiverKeys(fs))| ==> |SortedKeys(GiverKeys(fs))[i]| == 1
  {
    var gs := SortedKeys(GiverKeys(fs));
    forall i | 0 <= i < |gs|
      ensures |gs[i]| == 1
    {
      assert gs[i] in gs;
      var k :| 0 <= k < |fs| && GiverKeys(fs)[k] == gs[i];
    }
  }

  /** The row labels are strictly sorted. */
  lemma LabelsSorted(gs: seq<Key>)
    requires Sorted(gs) && forall i :: 0 <= i < |gs| ==> |gs[i]| == 1
    ensures forall i, j :: 0 <= i < j < |Labels(gs)| ==> StrLess(Labels(gs)[i], Labels(gs)[j])
  {
    var index := Labels(gs);
    forall i, j | 0 <= i < j < |index|
      ensures StrLess(index[i], index[j])
    {
      SingletonLess(index[i], index[j]);
    }
  }

  /** The row labels are the givers of the facts. */
  lemma LabelsAreGivers(fs: seq<Fact>, g: string)
    requires forall i :: 0 <= i < |SortedKeys(GiverKeys(fs))| ==> |SortedKeys(GiverKeys(fs))[i]| == 1
    ensures g in Labels(SortedKeys(GiverKeys(fs))) <==> exists k :: 0 <= k < |fs| && fs[k].giver == g
  {
    var gs := SortedKeys(GiverKeys(fs));
    var index := Labels(gs);
    if g in index {
      var i :| 0 <= i < |index| && index[i] == g;
      assert gs[i] in gs;
      var k :| 0 <= k < |fs| && GiverKeys(fs)[k] == gs[i];
    }
    if exists k :: 0 <= k < |fs| && fs[k].giver == g {
      var k :| 0 <= k < |fs| && fs[k].giver == g;
      assert GiverKeys(fs)[k] == [g];
      assert [g] in gs;
      var i :| 0 <= i < |gs| && gs[i] == [g];
      assert index[i] == g;
    }
  }

  lemma AllLabelsAreGivers(fs: seq<Fact>)
    requires forall i :: 0 <= i < |SortedKeys(GiverKeys(fs))| ==> |SortedKeys(GiverKeys(fs))[i]| == 1
    ensures forall g :: g in Labels(SortedKeys(GiverKeys(fs))) <==> exists k :: 0 <= k < |fs| && fs[k].giver == g
  {
    forall g
      ensures g in Labels(SortedKeys(GiverKeys(fs))) <==> exists k :: 0 <= k < |fs| && fs[k].giver == g
    {
      LabelsAreGivers(fs, g);
    }
  }

  lemma AllColumnsOfFacts(fs: seq<Fact>)
    ensures forall c :: c in SortedKeys(ColumnKeys(fs)) <==> exists k :: 0 <= k < |fs| && fs[k].column == c
  {
    forall c
      ensures c in SortedKeys(ColumnKeys(fs)) <==> exists k :: 0 <= k < |fs| && fs[k].column == c
    {
      ColumnsOfFacts(fs, c);
    }
  }

  /** The cell grid: row i, column j holds what giver i handed over in column j. */
  function Cells(fs: seq<Fact>, index: seq<string>, columns: seq<Key>): (cells: seq<seq<int>>)
    ensures |cells| == |index|
    ensures forall i :: 0 <= i < |index| ==> |cells[i]| == |columns|
    ensures forall i, j :: 0 <= i < |index| && 0 <= j < |columns| ==>
      cells[i][j] == QuantityOf(fs, index[i], columns[j])
  {
    seq(|index|, i requires 0 <= i < |index| =>
      seq(|columns|, j requires 0 <= j < |columns| => QuantityOf(fs, index[i], columns[j])))
  }

  /** The column labels are the columns of the facts. */
  lemma ColumnsOfFacts(fs: seq<Fact>, c: Key)
    ensures c in SortedKeys(ColumnKeys(fs)) <==> exists k :: 0 <= k < |fs| && fs[k].column == c
  {
    if c in SortedKeys(ColumnKeys(fs)) {
      var k :| 0 <= k < |fs| && ColumnKeys(fs)[k] == c;
    }
    if exists k :: 0 <= k < |fs| && fs[k].column == c {
      var k :| 0 <= k < |fs| && fs[k].column == c;
      assert ColumnKeys(fs)[k] == c;
    }
  }

  /** `df.pivot_table(index="주는사람", columns=["받는사람", "구분"], values="수량",
      aggfunc="sum", fill_value=0)` over the facts of the keyed records. */
  function PivotTable(fs: seq<Fact>): (p: Pivot)
    ensures forall i, j :: 0 <= i < j < |p.index| ==> StrLess(p.index[i], p.index[j])
    ensures Sorted(p.columns)
    ensures forall g :: g in p.index <==> exists k :: 0 <= k < |fs| && fs[k].giver == g
    ensures forall c :: c in p.columns <==> exists k :: 0 <= k < |fs| && fs[k].column == c
    ensures Rectangular(p)
    ensures |p.index| == |SortedKeys(GiverKeys(fs))|
      && forall i :: 0 <= i < |p.index| ==> SortedKeys(GiverKeys(fs))[i] == [p.index[i]]
    ensures forall i, j :: 0 <= i < |p.index| && 0 <= j < |p.columns| ==>
      p.cells[i][j] == QuantityOf(fs, p.index[i], p.columns[j])
  {
    var gs := SortedKeys(GiverKeys(fs));
    var cs := SortedKeys(ColumnKeys(fs));
    GiverKeysAreSingletons(fs);
    var index := Labels(gs);
    LabelsSorted(gs);
    AllLabelsAreGivers(fs);
    AllColumnsOfFacts(fs);
    Pivot(index, cs, Cells(fs, index, cs))
  }

  /** Every row has one cell per column. */
  predicate Rectangular(p: Pivot) {
    |p.cells| == |p.index| && forall i :: 0 <= i < |p.cells| ==> |p.cells[i]| == |p.columns|
  }

  /** The sum of column `j` over the rows `cells`. */
  function ColumnSum(cells: seq<seq<int>>, j: nat): int
    requires forall i :: 0 <= i < |cells| ==> j < |cells[i]|
  {
    if cells == [] then 0 else cells[0][j] + ColumnSum(cells[1..], j)
  }

  /** `pivot.sum(axis=0)`. */
  function ColumnTotals(p: Pivot): (t: seq<int>)
    requires Rectangular(p)
    ensures |t| == |p.columns|
  {
    seq(|p.columns|, j requires 0 <= j < |p.columns| => ColumnSum(p.cells, j))
  }

  /** `pivot.loc["합계"] = pivot.sum(axis=0)`: the sums are taken first; a row
      already labelled 합계 is overwritten in place, otherwise a new row is
      added at the bottom. */
  function WithTotalRow(p: Pivot): (r: Pivot)
    requires Rectangular(p)
    ensures Rectangular(r) && r.columns == p.columns
    ensures TotalLabel in p.index ==> r.index == p.index
    ensures TotalLabel !in p.index ==> r.index == p.index + [TotalLabel]
    ensures forall i :: 0 <= i < |r.index| && r.index[i] == TotalLabel ==> r.cells[i] == ColumnTotals(p)
    ensures forall i :: 0 <= i < |p.index| && p.index[i] != TotalLabel ==> r.cells[i] == p.cells[i]
  {
    var t := ColumnTotals(p);
    if TotalLabel in p.index then
      Pivot(p.index, p.columns, seq(|p.cells|, i requires 0 <= i < |p.cells| =>
        if p.index[i] == TotalLabel then t else p.cells[i]))
    else
      Pivot(p.index + [TotalLabel], p.columns, p.cells + [t])
  }

  /** `admin_summary()`: `authority` is the session's value, None when the
      user's AUTHORITY cell was missing; `f` is the records sheet. */
  function AdminSummary(authority: Option<string>, f: Frame): (page: AdminPage)
    ensures page.NoPermission? <==> authority != Some("y")
    ensures page.NoData? <==> authority == Some("y") && IsEmpty(f)
    ensures page.KeyError? <==> authority == Some("y") && !IsEmpty(f) && !HasColumns(f.header)
    ensures page.Table? ==> HasColumns(f.header) && Rectangular(page.pivot) && TotalLabel in page.pivot.index
    ensures page.Table? ==> page.pivot == WithTotalRow(PivotTable(Facts(f.header, f.records)))
  {
    if authority != Some("y") then NoPermission
    else if IsEmpty(f) then NoData
    else if !HasColumns(f.header) then KeyError
    else Table(WithTotalRow(PivotTable(Facts(f.header, f.records))))
  }

  /** The rows are the givers that occur on some record with all three label cells. */
  lemma PivotRows(header: seq<string>, records: seq<seq<string>>, g: string)
    requires HasColumns(header)
    ensures g in PivotTable(Facts(header, records)).index <==>
      exists j :: 0 <= j < |records| && Keyed(header, records[j]) && FactOf(header, records[j]).giver == g
  {
    var fs := Facts(header, records);
    if exists k :: 0 <= k < |fs| && fs[k].giver == g {
      var k :| 0 <= k < |fs| && fs[k].giver == g;
      FactsOfRecords(header, records, fs[k]);
    }
    if exists j :: 0 <= j < |records| && Keyed(header, records[j]) && FactOf(header, records[j]).giver == g {
      var j :| 0 <= j < |records| && Keyed(header, records[j]) && FactOf(header, records[j]).giver == g;
      FactsOfRecords(header, records, FactOf(header, records[j]));
      var k :| 0 <= k < |fs| && fs[k] == FactOf(header, records[j]);
    }
  }

  /** The columns are the (받는사람, 구분) pairs that occur on some record with
      all three label cells. */
  lemma PivotColumns(header: seq<string>, records: seq<seq<string>>, c: Key)
    requires HasColumns(header)
    ensures c in PivotTable(Facts(header, records)).columns <==>
      exists j :: 0 <= j < |records| && Keyed(header, records[j]) && FactOf(header, records[j]).column == c
  {
    var fs := Facts(header, records);
    if exists k :: 0 <= k < |fs| && fs[k].column == c {
      var k :| 0 <= k < |fs| && fs[k].column == c;
      FactsOfRecords(header, records, fs[k]);
    }
    if exists j :: 0 <= j < |records| && Keyed(header, records[j]) && FactOf(header, records[j]).column == c {
      var j :| 0 <= j < |records| && Keyed(header, records[j]) && FactOf(header, records[j]).column == c;
      FactsOfRecords(header, records, FactOf(header, records[j]));
      var k :| 0 <= k < |fs| && fs[k] == FactOf(header, records[j]);
    }
  }

  /** `fill_value=0`: a giver who handed nothing over in a column shows 0 there. */
  lemma {:induction false} PivotCellZero(fs: seq<Fact>, g: string, c: Key)
    requires forall k :: 0 <= k < |fs| ==> fs[k].giver != g || fs[k].column != c
    ensures QuantityOf(fs, g, c) == 0
  {
    if fs != [] {
      PivotCellZero(fs[1..], g, c);
    }
  }

  lemma {:induction false} ColumnSumOver(cells: seq<seq<int>>, j: nat, gs: seq<Key>, es: seq<Entry>)
    requires |cells| == |gs|
    requires forall i :: 0 <= i < |cells| ==> j < |cells[i]| && cells[i][j] == SumFor(es, gs[i])
    ensures ColumnSum(cells, j) == SumOver(gs, es)
  {
    if cells != [] {
      ColumnSumOver(cells[1..], j, gs[1..], es);
    }
  }

  /** The column sums of the pivot are the total quantity of each column: every
      record lands in exactly one giver's row. */
  lemma ColumnTotalsAreColumnQuantities(fs: seq<Fact>)
    ensures var p := PivotTable(fs);
      forall j :: 0 <= j < |p.columns| ==> ColumnTotals(p)[j] == ColumnQuantity(fs, p.columns[j])
  {
    var p := PivotTable(fs);
    var gs := SortedKeys(GiverKeys(fs));
    forall j | 0 <= j < |p.columns|
      ensures ColumnTotals(p)[j] == ColumnQuantity(fs, p.columns[j])
    {
      var c := p.columns[j];
      var es := CellEntries(fs, c);
      forall i | 0 <= i < |p.cells|
        ensures j < |p.cells[i]| && p.cells[i][j] == SumFor(es, gs[i])
      {
        CellEntriesSum(fs, p.index[i], c);
      }
      ColumnSumOver(p.cells, j, gs, es);
      SortedIsDistinct(gs);
      SumOverPartition(gs, es);
      CellEntriesSum(fs, "", c);
    }
  }

  /** On the page, every cell of the 합계 row is the total quantity handed over
      in its column, whether the row was added or overwrote a giver's row. */
  lemma AdminTotalRow(authority: Option<string>, f: Frame, i: nat, j: nat)
    requires AdminSummary(authority, f).Table?
    requires var p := AdminSummary(authority, f).pivot;
      i < |p.index| && p.index[i] == TotalLabel && j < |p.columns|
    ensures HasColumns(f.header)
    ensures var p := AdminSummary(authority, f).pivot;
      p.cells[i][j] == ColumnQuantity(Facts(f.header, f.records), p.columns[j])
  {
    ColumnTotalsAreColumnQuantities(Facts(f.header, f.records));
  }
}
