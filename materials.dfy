/** A material record: the dictionary the form step builds and the ledger and
    receipt steps read with `m.get(key, "")`. Its keys are also the column
    names of the records sheet, which adds the two parties. */
module Materials {

  const CommKey := "통신방식"   // communication method
  const KindKey := "구분"       // category
  const NewOldKey := "신철"     // new or removed stock
  const QtyKey := "수량"        // quantity, kept as the text the user typed
  const BoxKey := "박스번호"    // box number

  const GiverColumn := "주는사람"
  const ReceiverColumn := "받는사람"

  type Material = map<string, string>

  /** `m.get(key, "")`. */
  function Field(m: Material, key: string): string {
    if key in m then m[key] else ""
  }

  /** The record the form builds for one table line. */
  function MaterialOf(comm: string, kind: string, newOld: string, qty: string, box: string): (m: Material)
    ensures m.Keys == {CommKey, KindKey, NewOldKey, QtyKey, BoxKey}
    ensures Field(m, CommKey) == comm && Field(m, KindKey) == kind && Field(m, NewOldKey) == newOld
    ensures Field(m, QtyKey) == qty && Field(m, BoxKey) == box
  {
    map[CommKey := comm, KindKey := kind, NewOldKey := newOld, QtyKey := qty, BoxKey := box]
  }
}
