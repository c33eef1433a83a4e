/** The frame `get_google_sheet_data` builds from the `values` of a sheet: the
    first row is the header, the rest are the records. */
module Sheets {
  import opened Wrappers

  datatype Frame = Frame(header: seq<string>, records: seq<seq<string>>)

  /** `pd.DataFrame()`, returned on every failure. */
  const EmptyFrame := Frame([], [])

  /** `df.empty`: no records or no columns. */
  predicate IsEmpty(f: Frame) {
    |f.records| == 0 || |f.header| == 0
  }

  /** `pd.DataFrame(records, columns=headers)` pads the records only up to the
      widest one, and raises unless that width is the number of header names:
      no record may be longer than the header, and one must be exactly as long. */
  predicate Fits(values: seq<seq<string>>)
    requires |values| >= 1
  {
    && (forall i :: 1 <= i < |values| ==> |values[i]| <= |values[0]|)
    && (exists i :: 1 <= i < |values| && |values[i]| == |values[0]|)
  }

  /** `get_google_sheet_data`: `response` is the sheet's `values` array, or None
      when the request or the JSON decoding failed. */
  function SheetFrame(response: Option<seq<seq<string>>>): (f: Frame)
    ensures response.None? ==> f == EmptyFrame
    ensures response.Some? && |response.value| < 2 ==> f == EmptyFrame
    ensures response.Some? && |response.value| >= 2 && !Fits(response.value) ==> f == EmptyFrame
    ensures response.Some? && |response.value| >= 2 && Fits(response.value) ==>
      f.header == response.value[0] && f.records == response.value[1..]
    ensures !IsEmpty(f) ==> forall r :: r in f.records ==> |r| <= |f.header|
    ensures !IsEmpty(f) ==> exists r :: r in f.records && |r| == |f.header|
  {
    match response
    case None => EmptyFrame
    case Some(values) =>
      if |values| < 2 then EmptyFrame
      else if !Fits(values) then EmptyFrame
      else Frame(values[0], values[1..])
  }

  /** A sheet with a header, no record longer than it and one record exactly as
      long is never reported empty, and its first record is the second sheet row. */
  lemma NonEmptySheet(values: seq<seq<string>>)
    requires |values| >= 2 && |values[0]| > 0 && Fits(values)
    ensures !IsEmpty(SheetFrame(Some(values)))
    ensures SheetFrame(Some(values)).records[0] == values[1]
  {
  }

  /** When every record is shorter than the header, pandas refuses the frame
      and the empty one is returned in its place. */
  lemma ShortRecordsNoFrame(values: seq<seq<string>>)
    requires |values| >= 2
    requires forall i :: 1 <= i < |values| ==> |values[i]| < |values[0]|
    ensures SheetFrame(Some(values)) == EmptyFrame
  {
  }

  /** Position of the first column called `name`. */
  function ColumnIndex(header: seq<string>, name: string): (i: nat)
    requires name in header
    ensures i < |header| && header[i] == name && name !in header[..i]
  {
    if header[0] == name then 0
    else
      assert header == [header[0]] + header[1..];
      1 + ColumnIndex(header[1..], name)
  }

  /** `row[name]`: None for a cell missing from a short record. */
  function Cell(header: seq<string>, record: seq<string>, name: string): (c: Option<string>)
    requires name in header
    ensures c.Some? <==> ColumnIndex(header, name) < |record|
  {
    var i := ColumnIndex(header, name);
    if i < |record| then Some(record[i]) else None
  }
}
