# AMIMMS material transfer app — a Dafny model

AMIMMS is a small Flask application for handing over AMI metering material.
A user logs in against a users sheet. They enter the transferred materials in a form
(통신방식 communication method, 구분 category, 신철 new/removed, 수량 quantity,
박스번호 box number). Both parties sign on a signature pad. The app then draws a
receipt image and uploads it. It also appends one row per material to a records sheet.
Two report pages read that sheet back: a per-receiver summary grouped by
(통신방식, 구분), and, for administrators, a pivot of givers against
(받는사람, 구분) pairs with a 합계 (total) row.

The model covers the logic of `app.py`. Each part is one module:

- `Text` — `str.strip`, `str.split` and `sep.join`.
- `Order` — Python's string and tuple order.
- `Quantity` — the `pd.to_numeric(errors="coerce").fillna(0)` coercion.
- `Sheets` — the frame `get_google_sheet_data` builds.
- `Materials` — the material record.
- `Ledger` — the rows `save_to_sheets` appends.
- `Form` — the five-list zip in `form_page`.
- `Signature` — `decode_sign`.
- `Receipt` — the drawing commands of `generate_receipt`, its saved file and its upload name (`os.path.basename`).
- `Grouping` — pandas-style sorted grouping and sums.
- `Summary`, `Admin` and `Login` — the three pages.

The loops of the source are methods with loop invariants, proved against
specification functions:

- the row loop of `save_to_sheets`;
- the index loop of `form_page`;
- the table loop of `generate_receipt`.

`generate_receipt` itself, which has no loop of its own, is a method that
paints step by step and is proved against the function that lists the
whole receipt.

The pandas pipelines and the other pure pieces are functions with lemmas.

External effects become parameters:

- The sheet's `values` array is an `Option` (None for any request failure).
- The three clock readings are strings.
- Base64 and PNG decoding is a partial function `decode: string -> Option<GreyImage>`.
- The presence of the logo asset is a boolean.
- The upload is returned as the request it would make.

A sheet record is a sequence of cells. pandas pads the records only up to the
widest one and builds the frame only when that width is the header's length.
So no record may be longer than the header, and at least one must be exactly
as long; otherwise the read counts as failed and the frame is empty. A cell
missing from a shorter record reads as `None`, as pandas pads it.

`decode_sign` keeps only the text between the first and the second comma
(`split(",")[1]`). It always applies the inversion 255 − p to the decoded
picture.

## Model

| member | source | states |
|---|---|---|
| Text.Strip | app.py:92-93 | the result is the input with its leading whitespace run and its trailing whitespace run removed, and neither starts nor ends with whitespace |
| Text.LeadingSpace | app.py:92-93 | counts exactly the whitespace characters the input starts with: all of them are whitespace and the next one is not |
| Text.TrailingSpace | app.py:92-93 | counts exactly the whitespace characters the input ends with: all of them are whitespace and the one before is not |
| Text.StripSpec | app.py:92-93 | `strip()` returns a contiguous part of the input with only whitespace dropped on either side, with no whitespace at either end, and stripping twice changes nothing |
| Text.Split | app.py:263 | `split(",")` never yields an empty list |
| Text.SplitSpec | app.py:263 | no field contains the separator; there are two or more fields iff the separator occurs; without it the result is `[s]` |
| Text.SplitConcat | app.py:263 | splitting `a + sep + b` gives the fields of `a` followed by those of `b` |
| Text.JoinEndsWithLast | app.py:292 | a join ends with its last field, right after a separator when there are several fields |
| Text.JoinSplit | app.py:263 | joining the fields of a split with the separator gives back the string |
| Text.SplitJoin | app.py:263 | splitting a join of separator-free fields gives back the fields |
| Order.StrLessIrreflexive | app.py:169 | no string sorts before itself |
| Order.StrLessTransitive | app.py:169 | string order is transitive |
| Order.StrLessTotal | app.py:169 | any two distinct strings are ordered one way or the other |
| Order.KeyLessIrreflexive | app.py:169 | no key tuple sorts before itself |
| Order.KeyLessTransitive | app.py:169 | tuple order is transitive |
| Order.KeyLessTotal | app.py:169 | any two distinct key tuples are ordered |
| Quantity.ParseInteger | app.py:165 | a number is read exactly from an optional sign followed by digits, with the sign of the result following the sign character |
| Quantity.NaturalText | app.py:165 | the decimal text of a natural number is all digits |
| Quantity.NaturalTextValue | app.py:165 | reading back the decimal text of n gives n |
| Quantity.QuantityOfIntegerText | app.py:165 | a cell holding the text of any integer n coerces to n |
| Quantity.CellQuantity | app.py:165 | a cell holding an integer's text counts as that integer; a missing cell and any other text count as 0 |
| Quantity.NonNumericCountsZero | app.py:165 | any text that is not an integer, including a lone or misplaced sign, counts as 0, and so does a missing cell |
| Sheets.SheetFrame | app.py:36-44 | a failed request, fewer than two rows, a record longer than the header, or no record exactly as long as it gives the empty frame; otherwise row 0 is the header and the rest are the records |
| Sheets.NonEmptySheet | app.py:37-41 | a sheet with a header, no record longer than it and one exactly as long is never reported empty, and its first record is the second sheet row |
| Sheets.ShortRecordsNoFrame | app.py:41-44 | when every record is shorter than the header, pandas refuses the frame and the empty frame is returned |
| Sheets.ColumnIndex | app.py:89 | a column is found at the first position holding its name |
| Sheets.Cell | app.py:89 | a cell is present exactly when the record reaches the column |
| Materials.MaterialOf | app.py:120-126 | the record built from one form line has exactly the five keys, each holding the submitted value |
| Ledger.LedgerRow | app.py:64-73 | eight cells: each material field under the ledger column of the same name, giver and receiver in the 주는사람 and 받는사람 positions, and the timestamp last |
| Ledger.SaveToSheets | app.py:60-73 | one row per material, in input order, each with the 8 cells [통신방식, 구분, giver, receiver, 신철, 수량, 박스번호, timestamp] ("" for a missing key); every row carries the same timestamp |
| Ledger.FormLineToLedgerRow | app.py:64-73 | a form line reaches the ledger with its fields in sheet column order and the parties between 구분 and 신철 |
| Ledger.ReadBackLedgerRow | app.py:64-73 | read back under the sheet's header, an appended row gives each party and each field under its own column name |
| Form.ZipMaterials | app.py:118-126 | the records are stored iff every other list is at least as long as the 통신방식 list (else IndexError); record i takes entry i of each list |
| Signature.Invert | app.py:267 | inversion keeps the dimensions, and each new level plus the old one is 255, so it stays within 0..255 |
| Signature.InvertTwice | app.py:267 | inverting twice gives back the image |
| Signature.InvertReversesTone | app.py:267 | a darker pixel becomes the lighter one |
| Signature.Payload | app.py:263 | the payload has no comma, and a comma-free input is kept whole |
| Signature.PayloadIsSecondField | app.py:263 | the payload of `prefix,data[,...]` is `data` |
| Signature.DecodeSign | app.py:261-270 | an empty payload gives None; otherwise the result is present iff decoding succeeds, and it is the decoded image inverted |
| Signature.EmptyPayloadNoSignature | app.py:263-265 | `prefix,` and the empty string give no signature whatever the decoder does |
| Signature.DataUrlKeepsDimensions | app.py:261-268 | a data URL that decodes gives a signature with the decoded picture's width and height |
| Receipt.BodyRows | app.py:249-256 | six commands per material |
| Receipt.BodyRowsSnoc | app.py:249-256 | adding a material adds exactly its row, 50 px further down |
| Receipt.DrawTable | app.py:241-258 | the table loop issues the header band, one row per material and the border, and ends with y = 460 + 50N |
| Receipt.BodyRowAt | app.py:249-256 | body row i is the row of material i at y + 50i |
| Receipt.TableGeometry | app.py:235-258 | row i is a white rectangle from 460+50i to 510+50i; consecutive rows touch; all rows lie inside the border from 400 to 460+50N, which is drawn last |
| Receipt.EmptyTable | app.py:243-258 | with no materials only the header band is drawn and the border ends at 460 |
| Receipt.CountFillConcat | app.py:243-258 | rectangle counts add up over concatenated command lists |
| Receipt.TextsCountNothing | app.py:243-258 | text commands add no rectangles |
| Receipt.RowCount | app.py:250-255 | each body row draws one white rectangle and no tinted one |
| Receipt.BodyRowsCount | app.py:249-256 | the body has one white rectangle per material |
| Receipt.TableRowCount | app.py:243-258 | the table has exactly one tinted header rectangle and N white body rectangles |
| Receipt.GenerateReceipt | app.py:206-292 | the commands are heading, table, signature block 200 px under the table and footer, with each signature decoded from its own input; the upload is that of `ReceiptUpload`, absent when the save fails |
| Receipt.ReceiptUpload | app.py:290-292 | the save fails, and nothing is uploaded, exactly when the receiver's name or the time holds a '/'; otherwise the JPEG goes to /tmp/receipt_<receiver>_<time>.jpg and is uploaded as receipt_<receiver>_<time>.jpg |
| Receipt.Basename | app.py:292 | the basename holds no '/', ends the path, and is the whole path or follows a '/' in it |
| Receipt.TmpBasename | app.py:292 | the basename of /tmp/<name> is <name> for a slash-free name |
| Receipt.SignaturePastesConcat | app.py:276-283 | the signature pastes of a concatenation are those of each part, in order |
| Receipt.NoSignaturePastes | app.py:276-283 | a list without signature pastes filters to nothing |
| Receipt.BodyRowsNoSignature | app.py:249-256 | the body rows paste no signature |
| Receipt.TableNoSignature | app.py:243-258 | the table pastes no signature |
| Receipt.SignatureBlockPastes | app.py:276-283 | the signature block's only pastes are the decoded signatures |
| Receipt.SignaturePlacement | app.py:276-283 | both labels are drawn at y = 460+50N+200; the signatures on the receipt are exactly the giver's (if decoded) at (240, y−120) then the receiver's (if decoded) at (840, y−120), each 250×100 |
| Receipt.SignaturesOnCanvas | app.py:276-283 | both signatures fit on the 1754 px canvas iff there are at most 22 materials |
| Grouping.SortedIsDistinct | app.py:168-169 | a strictly sorted key list has no duplicates |
| Grouping.Insert | app.py:168-169 | inserting a key keeps the list sorted and adds just that key |
| Grouping.SortedKeys | app.py:168-169 | the group keys are the distinct input keys in sorted order |
| Grouping.SumForAbsent | app.py:168 | a key with no entries sums to 0 |
| Grouping.SumOverCons | app.py:168 | one more entry adds its amount to the per-key sums iff its key is listed |
| Grouping.SumOverPartition | app.py:168 | the per-key sums over distinct keys covering all entries add up to the sum of all amounts |
| Grouping.EmptySumOver | app.py:168 | per-key sums of no entries are 0 |
| Summary.BoxEntries | app.py:167-168 | box counts are filed under the same group keys, in the same order, as the quantities |
| Summary.Summary | app.py:155-171 | no data iff the sheet is empty or the user never appears as 받는사람; KeyError (HTTP 500) iff a needed column is missing; otherwise the lines are strictly sorted by (통신방식, 구분), and each line's 합계 and 박스수 are the per-key sums of the quantity and box entries for its pair |
| Summary.QuantityEntries | app.py:165-167 | every entry is filed under a two-part (통신방식, 구분) key; which records give entries, and what they add up to, is stated by `EntryKeys` and `QuantityEntriesSum` |
| Summary.QuantityEntriesSum | app.py:165-168 | the per-key sum of the entries is the summed coerced 수량 of the user's records with that (통신방식, 구분) |
| Summary.BoxEntriesSum | app.py:167-168 | the per-key sum of the box entries is the number of the user's records with that pair that have a 박스번호 |
| Summary.SummaryLineValues | app.py:165-170 | each line's 합계 is the summed 수량 of the user's records with its pair, and its 박스수 the number of those records with a box number |
| Summary.GroupKeys | app.py:168-169 | the groups are exactly the keys of the user's records, strictly sorted |
| Summary.EntryKeys | app.py:167-168 | a group key occurs iff some record received by the user carries it |
| Summary.EntryKeyFound | app.py:167-168 | the key of every grouped record received by the user is among the grouped keys |
| Summary.EntryKeyOrigin | app.py:167-168 | every grouped key comes from some record received by the user |
| Summary.LineKey | app.py:167-170 | every summary line's (통신방식, 구분) pair is the key of a grouped record |
| Summary.KeyLine | app.py:167-170 | every grouped key has a summary line |
| Summary.SummaryGroups | app.py:167-170 | a (통신방식, 구분) line exists iff some record received by the user has that pair |
| Summary.RowTotals | app.py:168 | the 합계 and 박스수 column totals are the per-key sums over the group keys |
| Summary.SummaryConservation | app.py:165-168 | the 합계 of all lines is the summed quantity of all the user's grouped records, and the 박스수 of all lines is the number of those with a box number |
| Admin.FactOf | app.py:190-196 | a record's column label is its (받는사람, 구분) pair |
| Admin.FactsOfRecords | app.py:190-196 | a fact is listed iff some record with all three label cells produces it |
| Admin.CellEntries | app.py:190-196 | every quantity of a column is filed under a giver that occurs |
| Admin.CellEntriesSum | app.py:190-196 | the per-giver sum of a column is the quantity that giver handed over in it, and the column's total is its total quantity |
| Admin.ColumnsOfFacts | app.py:190-196 | a pair is among the sorted column keys iff some fact carries it |
| Admin.SingletonLess | app.py:190-196 | one-field keys sort as their strings do |
| Admin.PivotTable | app.py:190-196 | the rows are the givers in strictly sorted order; the columns are the pairs in strictly sorted order; each row has one cell per column, holding the quantity that giver handed over in that column |
| Admin.ColumnTotals | app.py:197 | one total per column |
| Admin.WithTotalRow | app.py:197 | the sums are taken first; a row already labelled 합계 is overwritten in place, otherwise a 합계 row is appended; every other row is kept |
| Admin.AdminSummary | app.py:175-197 | no permission iff the authority is not "y"; no data iff permitted and the sheet is empty; KeyError iff a needed column is missing; otherwise a rectangular table that has a 합계 row, namely the pivot of the records' facts with its total row |
| Admin.PivotRows | app.py:190-196 | a giver has a row iff some record with all three label cells names that giver |
| Admin.PivotColumns | app.py:190-196 | a (받는사람, 구분) pair has a column iff some record with all three label cells carries it |
| Admin.PivotCellZero | app.py:194 | a giver who handed nothing over in a column shows 0 there |
| Admin.ColumnSumOver | app.py:197 | the column sum is the per-giver sums added over the givers |
| Admin.ColumnTotalsAreColumnQuantities | app.py:190-197 | each column sum equals the total quantity handed over in that column |
| Admin.AdminTotalRow | app.py:190-197 | on the page, every 합계 cell is the total quantity of its column |
| Login.Users | app.py:89 | an ID is in the map iff some row carries it |
| Login.UsersKeepLastRow | app.py:89 | the password stored for an ID is the one on its last row |
| Login.FirstRow | app.py:97 | the authority is read from the first row with that ID |
| Login.Login | app.py:84-100 | the sheet is unavailable iff it is empty; KeyError iff ID or PASSWORD is missing; login succeeds iff the stripped ID is in the map and maps to the stripped password; the session ID is the stripped ID; the authority is "n" without an AUTHORITY column; a rejected POST shows the error |
| Login.LoginWithDuplicateId | app.py:89-97 | a duplicated ID logs in with the password of its last row and takes the authority of its first row |
| Login.UnknownIdRejected | app.py:89-94 | an ID on no row is rejected whatever the password |
| Login.LoginIgnoresSurroundingSpace | app.py:92-93 | spaces around the typed ID and password do not change the outcome |

## Left out

- Google Sheets HTTP calls: credentials, token refresh and `requests` are not modelled. A failed read is the `None` response of `Sheets.SheetFrame`. In `get_google_sheet_data` the credentials are loaded and refreshed before the guarded block, so a failure there raises out of the login, summary and admin pages as an HTTP 500; that failure is not modelled. The append in `save_to_sheets` is represented by the rows it sends; its caught failure is not modelled.
- `upload_to_gcs` is not part of this model. `Receipt.GenerateReceipt` returns the upload request (local path, object name) instead of the link.
- Receipt.GenerateReceipt: a '/' in the receiver's name is taken to name a directory under /tmp that does not exist, so the save fails and no upload is made. The model does not track which directories exist, nor other file-system errors of `img.save`.
- Pillow rendering is not modelled: font loading and its fallback, text rasterisation, pixel resizing and pasting, logo conversion and JPEG encoding. The receipt is modelled as the list of drawing commands with their coordinates.
- `Signature.DecodeSign` does not model the final conversion to RGBA. It returns the inverted grey image.
- Base64 and PNG decoding are the `decode` parameter.
- `datetime.now()` is not modelled. The three readings are the parameters `timestamp`, `writtenAt` and `savedAt`.
- Quantity.CellQuantity: only an optional sign followed by ASCII digits is read as a number. Text that `pd.to_numeric` also accepts, such as "3.5" (truncated to 3), " 7", "1e3" or other Unicode digits, counts as 0 here, because floating point parsing is not modelled. Text such as "inf", "+inf" or "infinity" becomes an infinite value that `astype(int)` refuses, so the summary and admin pages fail with an HTTP 500; the model counts it as 0.
- Quantity.CellQuantity: pandas stores the coerced quantities and their sums as 64-bit integers. A 수량 beyond ±2^63 is not read back exactly, and a sum past that range wraps; the model's integers are unbounded, so it does not capture either.
- Sheets.Cell: with a duplicated header name, pandas returns several columns; the model reads the first one.
- Admin.PivotTable: a non-empty sheet where no record has all three label cells gives an empty pivot plus the 합계 row here. pandas' behaviour for that empty pivot is not modelled.
- The HTML rendering is not modelled: `to_html`, `to_dict("records")` and the templates.
- Flask routing is not modelled: sessions, the login-required redirects, `menu`, `confirm`, `logout` and the `new=1` reset of the form.
- A POST lacking a form field (HTTP 400) is not modelled.
- utils/generate_receipt.py is not part of this model. It only draws at constant coordinates.
