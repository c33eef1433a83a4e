/** The `summary` page: the logged-in user's received materials, one line per
    (통신방식, 구분) with the summed quantity (합계) and the number of boxes (박스수). */
module Summary {
  import opened Wrappers
  import opened Order
  import opened Sheets
  import opened Quantity
  import opened Grouping
  import opened Materials


  /** One line of the summary: 통신방식, 구분, 합계, 박스수. */
  datatype SummaryRow = SummaryRow(comm: string, kind: string, total: int, boxes: int)

  /** What the page shows: the "no data" message, the table, or the HTTP 500
      a KeyError on a missing column causes. */
  datatype SummaryPage = NoRecords | KeyError | Table(rows: seq<SummaryRow>)

  predicate HasColumns(header: seq<string>) {
    ReceiverColumn in header && CommKey in header && KindKey in header
    && QtyKey in header && BoxKey in header
  }

  predicate ReceivedBy(header: seq<string>, record: seq<string>, user: string)
    requires ReceiverColumn in header
  {
    Cell(header, record, ReceiverColumn) == Some(user)
  }

  /** A record that lands in a group: received by `user`, with both key cells
      present (groupby drops records whose key is missing). */
  predicate Contributes(header: seq<string>, record: seq<string>, user: string)
    requires HasColumns(header)
  {
    ReceivedBy(header, record, user)
    && Cell(header, record, CommKey).Some? && Cell(header, record, KindKey).Some?
  }

  function GroupKey(header: seq<string>, record: seq<string>): (k: Key)
    requires HasColumns(header)
    requires Cell(header, record, CommKey).Some? && Cell(header, record, KindKey).Some?
    ensures |k| == 2
  {
    [Cell(header, record, CommKey).value, Cell(header, record, KindKey).value]
  }

  /** The quantity of each contributing record, filed under its group. */
  function QuantityEntries(header: seq<string>, records: seq<seq<string>>, user: string): (es: seq<Entry>)
    requires HasColumns(header)
    ensures forall i :: 0 <= i < |es| ==> |es[i].key| == 2
  {
    if records == [] then []
    else
      (if Contributes(header, records[0], user)
       then [Entry(GroupKey(header, records[0]), CellQuantity(Cell(header, records[0], QtyKey)))]
       else [])
      + QuantityEntries(header, records[1..], user)
  }

  /** 1 for each contributing record with a box number (`count` skips missing cells). */
  function BoxEntries(header: seq<string>, records: seq<seq<string>>, user: string): (es: seq<Entry>)
    requires HasColumns(header)
    ensures KeysOf(es) == KeysOf(QuantityEntries(header, records, user))
  {
    if records == [] then []
    else
      (if Contributes(header, records[0], user)
       then [Entry(GroupKey(header, records[0]), if Cell(header, records[0], BoxKey).Some? then 1 else 0)]
       else [])
      + BoxEntries(header, records[1..], user)
  }

  /** The 합계 of group `k` read straight off the records: the coerced 수량 of
      every record received by `user` whose (통신방식, 구분) is `k`. */
  function GroupQuantity(header: seq<string>, records: seq<seq<string>>, user: string, k: Key): int
    requires HasColumns(header)
  {
    if records == [] then 0
    else
      (if Contributes(header, records[0], user) && GroupKey(header, records[0]) == k
       then CellQuantity(Cell(header, records[0], QtyKey)) else 0)
      + GroupQuantity(header, records[1..], user, k)
  }

  /** The 박스수 of group `k` read straight off the records: how many records
      received by `user` with (통신방식, 구분) equal to `k` have a 박스번호 cell. */
  function GroupBoxes(header: seq<string>, records: seq<seq<string>>, user: string, k: Key): nat
    requires HasColumns(header)
  {
    if records == [] then 0
    else
      (if Contributes(header, records[0], user) && GroupKey(header, records[0]) == k
          && Cell(header, records[0], BoxKey).Some?
       then 1 else 0)
      + GroupBoxes(header, records[1..], user, k)
  }

  /** The per-key sum of the quantity entries is the group's quantity. */
  lemma {:induction false} QuantityEntriesSum(header: seq<string>, records: seq<seq<string>>, user: string, k: Key)
    requires HasColumns(header)
    ensures SumFor(QuantityEntries(header, records, user), k) == GroupQuantity(header, records, user, k)
  {
    if records != [] {
      var rest := QuantityEntries(header, records[1..], user);
      QuantityEntriesSum(header, records[1..], user, k);
      if Contributes(header, records[0], user) {
        var e := Entry(GroupKey(header, records[0]), CellQuantity(Cell(header, records[0], QtyKey)));
        assert QuantityEntries(header, records, user) == [e] + rest;
        SumForCons(e, rest, k);
      } else {
        assert QuantityEntries(header, records, user) == rest;
      }
    }
  }

  /** The per-key sum of the box entries is the group's box count. */
  lemma {:induction false} BoxEntriesSum(header: seq<string>, records: seq<seq<string>>, user: string, k: Key)
    requires HasColumns(header)
    ensures SumFor(BoxEntries(header, records, user), k) == GroupBoxes(header, records, user, k)
  {
    if records != [] {
      var rest := BoxEntries(header, records[1..], user);
      BoxEntriesSum(header, records[1..], user, k);
      if Contributes(header, records[0], user) {
        var e := Entry(GroupKey(header, records[0]), if Cell(header, records[0], BoxKey).Some? then 1 else 0);
        assert BoxEntries(header, records, user) == [e] + rest;
        SumForCons(e, rest, k);
      } else {
        assert BoxEntries(header, records, user) == rest;
      }
    }
  }

  predicate SomeRecordReceivedBy(f: Frame, user: string)
    requires ReceiverColumn in f.header
  {
    exists i :: 0 <= i < |f.records| && ReceivedBy(f.header, f.records[i], user)
  }

  /** `summary()` for the logged-in `user` over the records sheet `f`. */
  function Summary(f: Frame, user: string): (page: SummaryPage)
    ensures page.NoRecords? <==>
      IsEmpty(f) || (ReceiverColumn in f.header && !SomeRecordReceivedBy(f, user))
    ensures page.KeyError? <==>
      !IsEmpty(f) && (ReceiverColumn !in f.header || (SomeRecordReceivedBy(f, user) && !HasColumns(f.header)))
    ensures page.Table? ==> HasColumns(f.header)
    ensures page.Table? ==> forall i, j :: 0 <= i < j < |page.rows| ==>
      KeyLess([page.rows[i].comm, page.rows[i].kind], [page.rows[j].comm, page.rows[j].kind])
    ensures page.Table? ==> forall i :: 0 <= i < |page.rows| ==>
      && page.rows[i].total == SumFor(QuantityEntries(f.header, f.records, user), [page.rows[i].comm, page.rows[i].kind])
      && page.rows[i].boxes == SumFor(BoxEntries(f.header, f.records, user), [page.rows[i].comm, page.rows[i].kind])
  {
    if IsEmpty(f) then NoRecords
    else if ReceiverColumn !in f.header then KeyError
    else if !SomeRecordReceivedBy(f, user) then NoRecords
    else if !HasColumns(f.header) then KeyError
    else
      var qs := QuantityEntries(f.header, f.records, user);
      var bs := BoxEntries(f.header, f.records, user);
      var keys := GroupKeys(qs);
      Table(seq(|keys|, i requires 0 <= i < |keys| =>
        SummaryRow(keys[i][0], keys[i][1], SumFor(qs, keys[i]), SumFor(bs, keys[i]))))
  }

  /** The sorted distinct (통신방식, 구분) pairs of the entries. */
  function GroupKeys(qs: seq<Entry>): (keys: seq<Key>)
    requires forall i :: 0 <= i < |qs| ==> |qs[i].key| == 2
    ensures Sorted(keys)
    ensures forall k :: k in keys <==> k in KeysOf(qs)
    ensures forall i :: 0 <= i < |keys| ==> |keys[i]| == 2 && keys[i] == [keys[i][0], keys[i][1]]
  {
    var keys := SortedKeys(KeysOf(qs));
    assert forall i :: 0 <= i < |keys| ==> |keys[i]| == 2 by {
      forall i | 0 <= i < |keys|
        ensures |keys[i]| == 2
      {
        assert keys[i] in keys;
        assert keys[i] in KeysOf(qs);
        var j :| 0 <= j < |qs| && KeysOf(qs)[j] == keys[i];
      }
    }
    keys
  }

  /** One step of QuantityEntries, seen through its keys. */
  lemma EntryKeysStep(header: seq<string>, records: seq<seq<string>>, user: string)
    requires HasColumns(header) && records != []
    ensures Contributes(header, records[0], user) ==>
      KeysOf(QuantityEntries(header, records, user))
      == [GroupKey(header, records[0])] + KeysOf(QuantityEntries(header, records[1..], user))
    ensures !Contributes(header, records[0], user) ==>
      KeysOf(QuantityEntries(header, records, user)) == KeysOf(QuantityEntries(header, records[1..], user))
  {
    var rest := QuantityEntries(header, records[1..], user);
    if Contributes(header, records[0], user) {
      var e := Entry(GroupKey(header, records[0]), CellQuantity(Cell(header, records[0], QtyKey)));
      assert QuantityEntries(header, records, user) == [e] + rest;
      KeysOfConcat([e], rest);
    } else {
      assert QuantityEntries(header, records, user) == [] + rest;
    }
  }

  /** A contributing record's key is among the entries' keys. */
  lemma {:induction false} EntryKeyFound(header: seq<string>, records: seq<seq<string>>, user: string, j: nat)
    requires HasColumns(header)
    requires j < |records| && Contributes(header, records[j], user)
    ensures GroupKey(header, records[j]) in KeysOf(QuantityEntries(header, records, user))
  {
    EntryKeysStep(header, records, user);
    if j > 0 {
      assert records[1..][j - 1] == records[j];
      EntryKeyFound(header, records[1..], user, j - 1);
      var rest := KeysOf(QuantityEntries(header, records[1..], user));
      if Contributes(header, records[0], user) {
        assert GroupKey(header, records[j]) in [GroupKey(header, records[0])] + rest;
      }
    }
  }

  /** Every key among the entries' keys comes from a contributing record. */
  lemma {:induction false} EntryKeyOrigin(header: seq<string>, records: seq<seq<string>>, user: string, key: Key)
    requires HasColumns(header)
    requires key in KeysOf(QuantityEntries(header, records, user))
    ensures exists j :: 0 <= j < |records| && Contributes(header, records[j], user) && GroupKey(header, records[j]) == key
  {
    EntryKeysStep(header, records, user);
    if !(Contributes(header, records[0], user) && GroupKey(header, records[0]) == key) {
      var keys := KeysOf(QuantityEntries(header, records[1..], user));
      assert key in keys;
      EntryKeyOrigin(header, records[1..], user, key);
      var j :| 0 <= j < |records[1..]| && Contributes(header, records[1..][j], user)
               && GroupKey(header, records[1..][j]) == key;
      assert records[1..][j] == records[j + 1];
    }
  }

  lemma EntryKeys(header: seq<string>, records: seq<seq<string>>, user: string, key: Key)
    requires HasColumns(header)
    ensures key in KeysOf(QuantityEntries(header, records, user)) <==>
      exists j :: 0 <= j < |records| && Contributes(header, records[j], user) && GroupKey(header, records[j]) == key
  {
    if key in KeysOf(QuantityEntries(header, records, user)) {
      EntryKeyOrigin(header, records, user, key);
    }
    if exists j :: 0 <= j < |records| && Contributes(header, records[j], user) && GroupKey(header, records[j]) == key {
      var j :| 0 <= j < |records| && Contributes(header, records[j], user) && GroupKey(header, records[j]) == key;
      EntryKeyFound(header, records, user, j);
    }
  }

  /** A (통신방식, 구분) pair has a line in the summary exactly when some record
      received by the user carries that pair. */
  lemma SummaryGroups(f: Frame, user: string, comm: string, kind: string)
    requires Summary(f, user).Table?
    ensures HasColumns(f.header)
    ensures var rows := Summary(f, user).rows;
      (exists i :: 0 <= i < |rows| && rows[i].comm == comm && rows[i].kind == kind) <==>
      (exists j :: 0 <= j < |f.records| && Contributes(f.header, f.records[j], user)
                   && GroupKey(f.header, f.records[j]) == [comm, kind])
  {
    var rows := Summary(f, user).rows;
    EntryKeys(f.header, f.records, user, [comm, kind]);
    if exists i :: 0 <= i < |rows| && rows[i].comm == comm && rows[i].kind == kind {
      var i :| 0 <= i < |rows| && rows[i].comm == comm && rows[i].kind == kind;
      LineKey(f, user, i);
    }
    if [comm, kind] in KeysOf(QuantityEntries(f.header, f.records, user)) {
      KeyLine(f, user, [comm, kind]);
    }
  }

  /** Line i of the summary is labelled with a key of the user's entries. */
  lemma LineKey(f: Frame, user: string, i: nat)
    requires Summary(f, user).Table? && i < |Summary(f, user).rows|
    ensures HasColumns(f.header)
    ensures var row := Summary(f, user).rows[i];
      [row.comm, row.kind] in KeysOf(QuantityEntries(f.header, f.records, user))
  {
    var keys := GroupKeys(QuantityEntries(f.header, f.records, user));
    assert keys[i] in keys;
  }

  /** Every key of the user's entries labels a line of the summary. */
  lemma KeyLine(f: Frame, user: string, key: Key)
    requires Summary(f, user).Table?
    requires HasColumns(f.header) && key in KeysOf(QuantityEntries(f.header, f.records, user))
    ensures exists i ::
      0 <= i < |Summary(f, user).rows| && [Summary(f, user).rows[i].comm, Summary(f, user).rows[i].kind] == key
  {
    var keys := GroupKeys(QuantityEntries(f.header, f.records, user));
    assert key in keys;
    var i :| 0 <= i < |keys| && keys[i] == key;
    assert [Summary(f, user).rows[i].comm, Summary(f, user).rows[i].kind] == keys[i];
  }

  /** Each line shows, for its (통신방식, 구분) pair, the summed quantity of the
      user's records with that pair as 합계 and the number of them that have a
      box number as 박스수. */
  lemma SummaryLineValues(f: Frame, user: string, i: nat)
    requires Summary(f, user).Table? && i < |Summary(f, user).rows|
    ensures HasColumns(f.header)
    ensures Summary(f, user).rows[i].total
         == GroupQuantity(f.header, f.records, user, [Summary(f, user).rows[i].comm, Summary(f, user).rows[i].kind])
    ensures Summary(f, user).rows[i].boxes
         == GroupBoxes(f.header, f.records, user, [Summary(f, user).rows[i].comm, Summary(f, user).rows[i].kind])
  {
    var row := Summary(f, user).rows[i];
    QuantityEntriesSum(f.header, f.records, user, [row.comm, row.kind]);
    BoxEntriesSum(f.header, f.records, user, [row.comm, row.kind]);
  }

  /** 합계 column total and 박스수 column total. */
  function TotalQuantity(rows: seq<SummaryRow>): int {
    if rows == [] then 0 else rows[0].total + TotalQuantity(rows[1..])
  }

  function TotalBoxes(rows: seq<SummaryRow>): int {
    if rows == [] then 0 else rows[0].boxes + TotalBoxes(rows[1..])
  }

  lemma {:induction false} RowTotals(rows: seq<SummaryRow>, keys: seq<Key>, qs: seq<Entry>, bs: seq<Entry>)
    requires |rows| == |keys|
    requires forall i :: 0 <= i < |rows| ==> rows[i].total == SumFor(qs, keys[i]) && rows[i].boxes == SumFor(bs, keys[i])
    ensures TotalQuantity(rows) == SumOver(keys, qs) && TotalBoxes(rows) == SumOver(keys, bs)
  {
    if rows != [] {
      RowTotals(rows[1..], keys[1..], qs, bs);
    }
  }

  /** Nothing is lost or counted twice: the 합계 of all lines is the summed
      quantity of all the user's records that have both key cells, and the
      박스수 of all lines is the number of those records with a box number. */
  lemma SummaryConservation(f: Frame, user: string)
    requires Summary(f, user).Table?
    ensures HasColumns(f.header)
    ensures TotalQuantity(Summary(f, user).rows) == Total(QuantityEntries(f.header, f.records, user))
    ensures TotalBoxes(Summary(f, user).rows) == Total(BoxEntries(f.header, f.records, user))
  {
    var qs := QuantityEntries(f.header, f.records, user);
    var bs := BoxEntries(f.header, f.records, user);
    var keys := GroupKeys(qs);
    var rows := Summary(f, user).rows;
    RowTotals(rows, keys, qs, bs);
    SortedIsDistinct(keys);
    forall i | 0 <= i < |qs|
      ensures qs[i].key in keys
    {
      assert KeysOf(qs)[i] == qs[i].key;
    }
    forall i | 0 <= i < |bs|
      ensures bs[i].key in keys
    {
      assert KeysOf(bs)[i] == bs[i].key;
      assert KeysOf(qs)[i] == bs[i].key;
    }
    SumOverPartition(keys, qs);
    SumOverPartition(keys, bs);
  }
}
