/** `save_to_sheets`: the rows appended to the records sheet for one confirmed
    transfer. The HTTP append itself (token refresh, POST, error logging) is
    not modelled; the rows are what it sends. */
module Ledger {
  import opened Wrappers
  import opened Materials
  import opened Sheets

  /** Column names of the records sheet in the order the appended rows fill
      them; the eighth column holds the timestamp. */
  const LedgerColumns := [CommKey, KindKey, GiverColumn, ReceiverColumn, NewOldKey, QtyKey, BoxKey]

  /** The eight cells appended for one material. */
  function LedgerRow(m: Material, giver: string, receiver: string, timestamp: string): (row: seq<string>)
    ensures |row| == 8
    ensures forall i :: 0 <= i < 7 && i != 2 && i != 3 ==> row[i] == Field(m, LedgerColumns[i])
    ensures row[2] == giver && row[3] == receiver && row[7] == timestamp
  {
    [Field(m, CommKey), Field(m, KindKey), giver, receiver,
     Field(m, NewOldKey), Field(m, QtyKey), Field(m, BoxKey), timestamp]
  }

  /** The `rows` of `save_to_sheets`: `timestamp` is the single
      `datetime.now()` reading taken before the loop. */
  method SaveToSheets(materials: seq<Material>, giver: string, receiver: string, timestamp: string)
    returns (rows: seq<seq<string>>)
    ensures |rows| == |materials|
    ensures forall i :: 0 <= i < |rows| ==> rows[i] == LedgerRow(materials[i], giver, receiver, timestamp)
    ensures forall i :: 0 <= i < |rows| ==>
      && |rows[i]| == 8
      && rows[i][0] == Field(materials[i], CommKey) && rows[i][1] == Field(materials[i], KindKey)
      && rows[i][2] == giver && rows[i][3] == receiver
      && rows[i][4] == Field(materials[i], NewOldKey) && rows[i][5] == Field(materials[i], QtyKey)
      && rows[i][6] == Field(materials[i], BoxKey) && rows[i][7] == timestamp
    ensures forall i, j :: 0 <= i < |rows| && 0 <= j < |rows| ==> rows[i][7] == rows[j][7]
  {
    rows := [];
    for k := 0 to |materials|
      invariant |rows| == k
      invariant forall i :: 0 <= i < k ==> rows[i] == LedgerRow(materials[i], giver, receiver, timestamp)
    {
      rows := rows + [LedgerRow(materials[k], giver, receiver, timestamp)];
    }
  }

  /** A line entered on the form reaches the ledger with its fields in sheet
      column order and the parties between 구분 and 신철. */
  lemma FormLineToLedgerRow(comm: string, kind: string, newOld: string, qty: string, box: string,
                            giver: string, receiver: string, timestamp: string)
    ensures LedgerRow(MaterialOf(comm, kind, newOld, qty, box), giver, receiver, timestamp)
         == [comm, kind, giver, receiver, newOld, qty, box, timestamp]
  {
  }

  /** Read back through a sheet whose header names the ledger columns, an
      appended row gives each party and each material field under its own name. */
  lemma {:induction false} ReadBackLedgerRow(header: seq<string>, m: Material, giver: string, receiver: string, timestamp: string)
    requires |header| == 8 && header[..7] == LedgerColumns && header[7] !in LedgerColumns
    ensures header[0] == CommKey && header[1] == KindKey && header[2] == GiverColumn && header[3] == ReceiverColumn
    ensures header[4] == NewOldKey && header[5] == QtyKey && header[6] == BoxKey
    ensures var row := LedgerRow(m, giver, receiver, timestamp);
      && Cell(header, row, GiverColumn) == Some(giver)
      && Cell(header, row, ReceiverColumn) == Some(receiver)
      && Cell(header, row, CommKey) == Some(Field(m, CommKey))
      && Cell(header, row, KindKey) == Some(Field(m, KindKey))
      && Cell(header, row, NewOldKey) == Some(Field(m, NewOldKey))
      && Cell(header, row, QtyKey) == Some(Field(m, QtyKey))
      && Cell(header, row, BoxKey) == Some(Field(m, BoxKey))
      && Cell(header, row, header[7]) == Some(timestamp)
  {
    assert header[..7][0] == CommKey && header[..7][1] == KindKey && header[..7][2] == GiverColumn;
    assert header[..7][3] == ReceiverColumn && header[..7][4] == NewOldKey;
    assert header[..7][5] == QtyKey && header[..7][6] == BoxKey;
    assert ColumnIndex(header, CommKey) == 0;
    assert ColumnIndex(header, KindKey) == 1;
    assert ColumnIndex(header, GiverColumn) == 2;
    assert ColumnIndex(header, ReceiverColumn) == 3;
    assert ColumnIndex(header, NewOldKey) == 4;
    assert ColumnIndex(header, QtyKey) == 5;
    assert ColumnIndex(header, BoxKey) == 6;
    assert header[7] !in header[..7];
    assert ColumnIndex(header, header[7]) == 7;
  }
}
