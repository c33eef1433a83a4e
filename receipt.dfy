/** `generate_receipt`: the layout of the receipt image as the list of drawing
    commands it issues on the 1240x1754 canvas, in order. Rasterising the text,
    resizing and pasting pixels and the JPEG encoding are Pillow's and are not
    modelled; neither is the upload itself, whose request is returned instead. */
module Receipt {
  import opened Wrappers
  import opened Text
  import opened Materials
  import opened Signature

  const Width := 1240
  const Height := 1754
  const TableLeft := 80
  const TableRight := 1160
  const StartY := 400
  const HeaderHeight := 60
  const RowHeight := 50
  /** x of each table column; the cell text starts 10 px to the right of it. */
  const Positions := [100, 400, 700, 900, 1100]
  const Headers := ["통신방식", "구분", "신/철", "수량", "박스번호"]
  const Title := "자재 인수증"
  const FooterText := "한전KDN 주식회사 | AMI 자재관리시스템"
  /** Signatures are resized to this box before they are pasted. */
  const SignWidth := 250
  const SignHeight := 100

  datatype Fill = NoFill | White | HeaderTint   // HeaderTint is "#E3ECFC"
  datatype Font = TitleFont | BoldFont | TextFont | SmallFont
  datatype Ink = Black | Gray
  datatype Picture = Logo | Sign(image: GreyImage)

  /** Every rectangle has a black outline. */
  datatype Command =
    | DrawRectangle(left: int, top: int, right: int, bottom: int, fill: Fill)
    | DrawText(x: int, y: int, text: string, font: Font, ink: Ink)
    | PasteImage(picture: Picture, x: int, y: int, width: nat, height: nat)

  /** The tinted header band of the table and its five column titles. */
  function HeaderBand(): seq<Command> {
    [DrawRectangle(TableLeft, StartY, TableRight, StartY + HeaderHeight, HeaderTint),
     DrawText(Positions[0] + 10, StartY + 10, Headers[0], BoldFont, Black),
     DrawText(Positions[1] + 10, StartY + 10, Headers[1], BoldFont, Black),
     DrawText(Positions[2] + 10, StartY + 10, Headers[2], BoldFont, Black),
     DrawText(Positions[3] + 10, StartY + 10, Headers[3], BoldFont, Black),
     DrawText(Positions[4] + 10, StartY + 10, Headers[4], BoldFont, Black)]
  }

  /** One body row of the table whose top edge is at `y`. */
  function RowCommands(m: Material, y: int): seq<Command> {
    [DrawRectangle(TableLeft, y, TableRight, y + RowHeight, White),
     DrawText(Positions[0] + 10, y + 10, Field(m, CommKey), TextFont, Black),
     DrawText(Positions[1] + 10, y + 10, Field(m, KindKey), TextFont, Black),
     DrawText(Positions[2] + 10, y + 10, Field(m, NewOldKey), TextFont, Black),
     DrawText(Positions[3] + 10, y + 10, Field(m, QtyKey), TextFont, Black),
     DrawText(Positions[4] + 10, y + 10, Field(m, BoxKey), TextFont, Black)]
  }

  /** The body rows of `materials`, the first with its top edge at `y`. */
  function BodyRows(materials: seq<Material>, y: int): (ops: seq<Command>)
    ensures |ops| == 6 * |materials|
  {
    if materials == [] then [] else RowCommands(materials[0], y) + BodyRows(materials[1..], y + RowHeight)
  }

  /** Where the running `y` ends after the loop over `materials`. */
  function TableBottom(materials: seq<Material>): int {
    StartY + HeaderHeight + RowHeight * |materials|
  }

  /** Header band, body rows and the outer border, in drawing order. */
  function TableCommands(materials: seq<Material>): seq<Command> {
    HeaderBand() + BodyRows(materials, StartY + HeaderHeight)
      + [DrawRectangle(TableLeft, StartY, TableRight, TableBottom(materials), NoFill)]
  }

  lemma {:induction false} BodyRowsSnoc(materials: seq<Material>, m: Material, y: int)
    ensures BodyRows(materials + [m], y) == BodyRows(materials, y) + RowCommands(m, y + RowHeight * |materials|)
    decreases |materials|
  {
    if materials == [] {
      assert BodyRows([m], y) == RowCommands(m, y) + BodyRows([], y + RowHeight);
    } else {
      var ms := materials + [m];
      assert ms[0] == materials[0];
      assert ms[1..] == materials[1..] + [m];
      var head := RowCommands(materials[0], y);
      var last := RowCommands(m, y + RowHeight * |materials|);
      BodyRowsSnoc(materials[1..], m, y + RowHeight);
      assert y + RowHeight + RowHeight * |materials[1..]| == y + RowHeight * |materials|;
      calc {
        BodyRows(ms, y);
        head + BodyRows(ms[1..], y + RowHeight);
        head + (BodyRows(materials[1..], y + RowHeight) + last);
        (head + BodyRows(materials[1..], y + RowHeight)) + last;
        BodyRows(materials, y) + last;
      }
    }
  }

  /** The table loop: `y` starts under the header and moves down one row per
      material; the commands issued are those of TableCommands. */
  method DrawTable(materials: seq<Material>) returns (ops: seq<Command>, y: int)
    ensures y == TableBottom(materials)
    ensures ops == TableCommands(materials)
  {
    ops := HeaderBand();
    y := StartY + HeaderHeight;
    for i := 0 to |materials|
      invariant y == StartY + HeaderHeight + RowHeight * i
      invariant ops == HeaderBand() + BodyRows(materials[..i], StartY + HeaderHeight)
    {
      BodyRowsSnoc(materials[..i], materials[i], StartY + HeaderHeight);
      assert materials[..i + 1] == materials[..i] + [materials[i]];
      ops := ops + RowCommands(materials[i], y);
      y := y + RowHeight;
    }
    assert materials[..|materials|] == materials;
    ops := ops + [DrawRectangle(TableLeft, StartY, TableRight, y, NoFill)];
  }

  /** Body row `i` is a white rectangle from 460 + 50i to 510 + 50i followed by
      the five fields of material `i`, each 10 px right of its column. */
  lemma {:induction false} BodyRowAt(materials: seq<Material>, y: int, i: nat)
    requires i < |materials|
    ensures BodyRows(materials, y)[6 * i .. 6 * i + 6] == RowCommands(materials[i], y + RowHeight * i)
    decreases i
  {
    var row := RowCommands(materials[0], y);
    var rest := BodyRows(materials[1..], y + RowHeight);
    assert BodyRows(materials, y) == row + rest;
    if i == 0 {
      assert (row + rest)[0..6] == row;
    } else {
      BodyRowAt(materials[1..], y + RowHeight, i - 1);
      assert materials[1..][i - 1] == materials[i];
      SliceAfter(row, rest, 6 * (i - 1));
    }
  }

  /** A six-command window past the end of `a` lies in `b`. */
  lemma SliceAfter(a: seq<Command>, b: seq<Command>, x: nat)
    requires |a| == 6 && x + 6 <= |b|
    ensures (a + b)[6 + x .. 6 + x + 6] == b[x .. x + 6]
  {
  }

  /** Geometry of the table for N materials: row i spans 460+50i..510+50i, each
      row starts where the previous one ends, all rows lie inside the outer
      border drawn from 400 to 460+50N, and the border is the last command. */
  lemma TableGeometry(materials: seq<Material>, i: nat)
    requires i < |materials|
    ensures var ops := TableCommands(materials);
      && |ops| == 6 * |materials| + 7
      && ops[6 + 6 * i] == DrawRectangle(TableLeft, 460 + 50 * i, TableRight, 510 + 50 * i, White)
      && ops[|ops| - 1] == DrawRectangle(TableLeft, StartY, TableRight, 460 + 50 * |materials|, NoFill)
      && StartY + HeaderHeight <= 460 + 50 * i && 510 + 50 * i <= 460 + 50 * |materials|
      && (i + 1 < |materials| ==>
            ops[6 + 6 * (i + 1)].DrawRectangle? && ops[6 + 6 * (i + 1)].top == ops[6 + 6 * i].bottom)
  {
    RowRectangle(materials, i);
    if i + 1 < |materials| {
      RowRectangle(materials, i + 1);
    }
  }

  /** The white rectangle that opens body row i, seen in the whole table. */
  lemma RowRectangle(materials: seq<Material>, i: nat)
    requires i < |materials|
    ensures |TableCommands(materials)| == 6 * |materials| + 7
    ensures TableCommands(materials)[6 + 6 * i] == DrawRectangle(TableLeft, 460 + 50 * i, TableRight, 510 + 50 * i, White)
  {
    var body := BodyRows(materials, StartY + HeaderHeight);
    var border := [DrawRectangle(TableLeft, StartY, TableRight, TableBottom(materials), NoFill)];
    BodyRowAt(materials, StartY + HeaderHeight, i);
    InnerIndex(HeaderBand(), body, border, 6 * i);
    assert body[6 * i] == body[6 * i .. 6 * i + 6][0];
  }

  lemma InnerIndex(a: seq<Command>, b: seq<Command>, c: seq<Command>, k: nat)
    requires k < |b|
    ensures (a + b + c)[|a| + k] == b[k]
  {
  }

  /** With no materials only the header band is drawn and the border closes at 460. */
  lemma EmptyTable()
    ensures TableCommands([]) == HeaderBand() + [DrawRectangle(TableLeft, 400, TableRight, 460, NoFill)]
  {
  }

  /** Number of rectangles with the given fill. */
  function CountFill(ops: seq<Command>, fill: Fill): nat {
    if ops == [] then 0
    else (if ops[0].DrawRectangle? && ops[0].fill == fill then 1 else 0) + CountFill(ops[1..], fill)
  }

  lemma {:induction false} CountFillConcat(a: seq<Command>, b: seq<Command>, fill: Fill)
    ensures CountFill(a + b, fill) == CountFill(a, fill) + CountFill(b, fill)
  {
    if a == [] {
      assert a + b == b;
    } else {
      assert (a + b)[0] == a[0];
      assert (a + b)[1..] == a[1..] + b;
      CountFillConcat(a[1..], b, fill);
    }
  }

  lemma {:induction false} TextsCountNothing(ops: seq<Command>, fill: Fill)
    requires forall k :: 0 <= k < |ops| ==> ops[k].DrawText?
    ensures CountFill(ops, fill) == 0
  {
    if ops != [] {
      TextsCountNothing(ops[1..], fill);
    }
  }

  lemma RowCount(m: Material, y: int)
    ensures CountFill(RowCommands(m, y), White) == 1
    ensures CountFill(RowCommands(m, y), HeaderTint) == 0
  {
    var row := RowCommands(m, y);
    assert row == [row[0]] + row[1..];
    TextsCountNothing(row[1..], White);
    TextsCountNothing(row[1..], HeaderTint);
    CountFillConcat([row[0]], row[1..], White);
    CountFillConcat([row[0]], row[1..], HeaderTint);
  }

  lemma {:induction false} BodyRowsCount(materials: seq<Material>, y: int)
    ensures CountFill(BodyRows(materials, y), White) == |materials|
    ensures CountFill(BodyRows(materials, y), HeaderTint) == 0
    decreases |materials|
  {
    if materials != [] {
      var row := RowCommands(materials[0], y);
      var rest := BodyRows(materials[1..], y + RowHeight);
      BodyRowsCount(materials[1..], y + RowHeight);
      RowCount(materials[0], y);
      CountFillConcat(row, rest, White);
      CountFillConcat(row, rest, HeaderTint);
    }
  }

  /** The table of N materials has exactly one header row and N body rows. */
  lemma TableRowCount(materials: seq<Material>)
    ensures CountFill(TableCommands(materials), HeaderTint) == 1
    ensures CountFill(TableCommands(materials), White) == |materials|
  {
    var body := BodyRows(materials, StartY + HeaderHeight);
    var border := [DrawRectangle(TableLeft, StartY, TableRight, TableBottom(materials), NoFill)];
    var header := HeaderBand();
    assert header == [header[0]] + header[1..];
    TextsCountNothing(header[1..], White);
    TextsCountNothing(header[1..], HeaderTint);
    CountFillConcat([header[0]], header[1..], White);
    CountFillConcat([header[0]], header[1..], HeaderTint);
    assert CountFill(border, White) == 0 && CountFill(border, HeaderTint) == 0;
    BodyRowsCount(materials, StartY + HeaderHeight);
    CountFillConcat(HeaderBand(), body, HeaderTint);
    CountFillConcat(HeaderBand() + body, border, HeaderTint);
    CountFillConcat(HeaderBand(), body, White);
    CountFillConcat(HeaderBand() + body, border, White);
  }

  /** The two signature labels, then each signature that decoded, resized to
      250x100 and pasted 40 px right of and 120 px above its own label. */
  function SignatureBlock(footerY: int, giver: string, receiver: string,
                          giverImg: Option<GreyImage>, receiverImg: Option<GreyImage>): seq<Command> {
    [DrawText(200, footerY, "주는 사람: " + giver + " (인)", BoldFont, Black),
     DrawText(800, footerY, "받는 사람: " + receiver + " (인)", BoldFont, Black)]
    + BlockPastes(footerY, giverImg, receiverImg)
  }

  /** Logo (when the asset exists), title and the date line. */
  function Heading(logoExists: bool, writtenAt: string): seq<Command> {
    (if logoExists then [PasteImage(Logo, 100, 60, 220, 220)] else [])
    + [DrawText(460, 120, Title, TitleFont, Black),
       DrawText(100, 300, "작성일자: " + writtenAt, TextFont, Black)]
  }

  /** Everything drawn on the receipt, in order. */
  function ReceiptCommands(materials: seq<Material>, giver: string, receiver: string,
                           giverImg: Option<GreyImage>, receiverImg: Option<GreyImage>,
                           logoExists: bool, writtenAt: string): seq<Command> {
    Heading(logoExists, writtenAt) + TableCommands(materials)
    + SignatureBlock(TableBottom(materials) + 200, giver, receiver, giverImg, receiverImg)
    + [DrawText(Width / 2 - 280, Height - 100, FooterText, SmallFont, Gray)]
  }

  /** `upload_to_gcs(tmp_filename, os.path.basename(tmp_filename), bucket)`. */
  datatype UploadRequest = UploadRequest(localPath: string, objectName: string)

  /** `os.path.basename`: the text after the last '/', i.e. the longest end of
      the path that holds no '/'. */
  function Basename(path: string): (b: string)
    ensures '/' !in b
    ensures |b| <= |path| && path[|path| - |b|..] == b
    ensures |b| < |path| ==> path[|path| - |b| - 1] == '/'
  {
    var parts := Split(path, '/');
    SplitSpec(path, '/');
    JoinSplit(path, '/');
    JoinEndsWithLast(parts, '/');
    parts[|parts| - 1]
  }

  /** `generate_receipt`: `writtenAt` and `savedAt` are the two clock readings
      (formatted "%Y-%m-%d %H:%M" and "%Y%m%d_%H%M%S"), `logoExists` whether the
      logo asset is present, and `decode` the base64 and PNG decoding. */
  method GenerateReceipt(materials: seq<Material>, giver: string, receiver: string,
                         giverSign: string, receiverSign: string, decode: string -> Option<GreyImage>,
                         logoExists: bool, writtenAt: string, savedAt: string)
    returns (ops: seq<Command>, upload: Option<UploadRequest>)
    ensures ops == ReceiptCommands(materials, giver, receiver,
                                   DecodeSign(giverSign, decode), DecodeSign(receiverSign, decode),
                                   logoExists, writtenAt)
    ensures upload == ReceiptUpload(receiver, savedAt)
  {
    ops := Heading(logoExists, writtenAt);
    var table, y := DrawTable(materials);
    ops := ops + table;

    var giverImg := DecodeSign(giverSign, decode);
    var receiverImg := DecodeSign(receiverSign, decode);

    var footerY := y + 200;
    ops := ops + [DrawText(200, footerY, "주는 사람: " + giver + " (인)", BoldFont, Black),
                  DrawText(800, footerY, "받는 사람: " + receiver + " (인)", BoldFont, Black)];
    if giverImg.Some? {
      ops := ops + [PasteImage(Sign(giverImg.value), 240, footerY - 120, SignWidth, SignHeight)];
    }
    if receiverImg.Some? {
      ops := ops + [PasteImage(Sign(receiverImg.value), 840, footerY - 120, SignWidth, SignHeight)];
    }
    assert ops == Heading(logoExists, writtenAt) + TableCommands(materials)
                  + SignatureBlock(TableBottom(materials) + 200, giver, receiver, giverImg, receiverImg);
    ops := ops + [DrawText(Width / 2 - 280, Height - 100, FooterText, SmallFont, Gray)];

    var tmpFilename := "/tmp/receipt_" + receiver + "_" + savedAt + ".jpg";
    if '/' in receiver || '/' in savedAt {
      // `img.save` raises FileNotFoundError: the request fails before the upload.
      upload := None;
    } else {
      upload := Some(UploadRequest(tmpFilename, Basename(tmpFilename)));
    }
  }

  /** The temporary JPEG and the object it is uploaded as, or None when saving
      fails: a '/' in the receiver's name (or in the time) places the file in a
      directory under /tmp that does not exist, so `img.save` raises, the
      request ends in an HTTP 500 and nothing is uploaded. Otherwise the object
      name is the file name "receipt_<receiver>_<time>.jpg". */
  function ReceiptUpload(receiver: string, savedAt: string): (u: Option<UploadRequest>)
    ensures u.None? <==> '/' in receiver || '/' in savedAt
    ensures u.Some? ==> u.value.localPath == "/tmp/receipt_" + receiver + "_" + savedAt + ".jpg"
    ensures u.Some? ==> u.value.objectName == "receipt_" + receiver + "_" + savedAt + ".jpg"
  {
    var name := "receipt_" + receiver + "_" + savedAt + ".jpg";
    var path := "/tmp/" + name;
    assert path == "/tmp/receipt_" + receiver + "_" + savedAt + ".jpg";
    if '/' !in receiver && '/' !in savedAt then
      assert '/' !in name;
      TmpBasename(name);
      Some(UploadRequest(path, Basename(path)))
    else
      None
  }

  lemma {:induction false} TmpBasename(name: string)
    requires '/' !in name
    ensures Basename("/tmp/" + name) == name
  {
    assert "/tmp/" + name == [] + ['/'] + ("tmp" + ['/'] + name);
    SplitConcat([], "tmp" + ['/'] + name, '/');
    SplitConcat("tmp", name, '/');
    SplitSpec(name, '/');
  }

  predicate IsSignPaste(c: Command) {
    c.PasteImage? && c.picture.Sign?
  }

  /** The signature pastes among `ops`, in order. */
  function SignaturePastes(ops: seq<Command>): seq<Command> {
    if ops == [] then []
    else (if IsSignPaste(ops[0]) then [ops[0]] else []) + SignaturePastes(ops[1..])
  }

  lemma {:induction false} SignaturePastesConcat(a: seq<Command>, b: seq<Command>)
    ensures SignaturePastes(a + b) == SignaturePastes(a) + SignaturePastes(b)
  {
    if a == [] {
      assert a + b == b;
    } else {
      var c := a + b;
      assert c[0] == a[0];
      assert c[1..] == a[1..] + b;
      SignaturePastesConcat(a[1..], b);
      var h := if IsSignPaste(a[0]) then [a[0]] else [];
      assert SignaturePastes(c) == h + SignaturePastes(a[1..] + b);
      assert SignaturePastes(a) == h + SignaturePastes(a[1..]);
      assert h + (SignaturePastes(a[1..]) + SignaturePastes(b)) == (h + SignaturePastes(a[1..])) + SignaturePastes(b);
    }
  }

  lemma {:induction false} NoSignaturePastes(ops: seq<Command>)
    requires forall k :: 0 <= k < |ops| ==> !IsSignPaste(ops[k])
    ensures SignaturePastes(ops) == []
  {
    if ops != [] {
      NoSignaturePastes(ops[1..]);
    }
  }

  lemma {:induction false} BodyRowsNoSignature(materials: seq<Material>, y: int)
    ensures SignaturePastes(BodyRows(materials, y)) == []
    decreases |materials|
  {
    if materials != [] {
      var row := RowCommands(materials[0], y);
      NoSignaturePastes(row);
      BodyRowsNoSignature(materials[1..], y + RowHeight);
      SignaturePastesConcat(row, BodyRows(materials[1..], y + RowHeight));
    }
  }

  lemma TableNoSignature(materials: seq<Material>)
    ensures SignaturePastes(TableCommands(materials)) == []
  {
    var body := BodyRows(materials, StartY + HeaderHeight);
    var border := [DrawRectangle(TableLeft, StartY, TableRight, TableBottom(materials), NoFill)];
    NoSignaturePastes(HeaderBand());
    BodyRowsNoSignature(materials, StartY + HeaderHeight);
    NoSignaturePastes(border);
    SignaturePastesConcat(HeaderBand(), body);
    SignaturePastesConcat(HeaderBand() + body, border);
  }

  /** The pastes of the signature block: the giver's first, then the receiver's. */
  function BlockPastes(footerY: int, giverImg: Option<GreyImage>, receiverImg: Option<GreyImage>): seq<Command> {
    (if giverImg.Some? then [PasteImage(Sign(giverImg.value), 240, footerY - 120, SignWidth, SignHeight)] else [])
    + (if receiverImg.Some? then [PasteImage(Sign(receiverImg.value), 840, footerY - 120, SignWidth, SignHeight)] else [])
  }

  lemma SignatureBlockPastes(footerY: int, giver: string, receiver: string,
                             giverImg: Option<GreyImage>, receiverImg: Option<GreyImage>)
    ensures SignaturePastes(SignatureBlock(footerY, giver, receiver, giverImg, receiverImg))
         == BlockPastes(footerY, giverImg, receiverImg)
  {
    var labels := [DrawText(200, footerY, "주는 사람: " + giver + " (인)", BoldFont, Black),
                   DrawText(800, footerY, "받는 사람: " + receiver + " (인)", BoldFont, Black)];
    var giverPaste := if giverImg.Some? then [PasteImage(Sign(giverImg.value), 240, footerY - 120, SignWidth, SignHeight)] else [];
    var receiverPaste := if receiverImg.Some? then [PasteImage(Sign(receiverImg.value), 840, footerY - 120, SignWidth, SignHeight)] else [];
    assert BlockPastes(footerY, giverImg, receiverImg) == giverPaste + receiverPaste;
    NoSignaturePastes(labels);
    assert SignaturePastes(giverPaste) == giverPaste;
    assert SignaturePastes(receiverPaste) == receiverPaste;
    SignaturePastesConcat(giverPaste, receiverPaste);
    SignaturePastesConcat(labels, giverPaste + receiverPaste);
  }

  /** The signatures on the receipt are exactly: the giver's, when it decoded,
      at x = 240, 40 px right of the giver label at x = 200, then the
      receiver's, when it decoded, at x = 840, 40 px right of the receiver label
      at x = 800; both 120 px above the labels, which sit 200 px below the
      table. A signature is never pasted at the other party's place. */
  lemma SignaturePlacement(materials: seq<Material>, giver: string, receiver: string,
                           giverImg: Option<GreyImage>, receiverImg: Option<GreyImage>,
                           logoExists: bool, writtenAt: string)
    ensures var ops := ReceiptCommands(materials, giver, receiver, giverImg, receiverImg, logoExists, writtenAt);
      var footerY := 460 + 50 * |materials| + 200;
      && DrawText(200, footerY, "주는 사람: " + giver + " (인)", BoldFont, Black) in ops
      && DrawText(800, footerY, "받는 사람: " + receiver + " (인)", BoldFont, Black) in ops
      && SignaturePastes(ops)
         == (if giverImg.Some? then [PasteImage(Sign(giverImg.value), 240, footerY - 120, 250, 100)] else [])
          + (if receiverImg.Some? then [PasteImage(Sign(receiverImg.value), 840, footerY - 120, 250, 100)] else [])
  {
    var heading := Heading(logoExists, writtenAt);
    var table := TableCommands(materials);
    var footerY := TableBottom(materials) + 200;
    var block := SignatureBlock(footerY, giver, receiver, giverImg, receiverImg);
    var footer := [DrawText(Width / 2 - 280, Height - 100, FooterText, SmallFont, Gray)];
    NoSignaturePastes(heading);
    TableNoSignature(materials);
    NoSignaturePastes(footer);
    PastesOfMiddle(heading, table, block, footer);
    SignatureBlockPastes(footerY, giver, receiver, giverImg, receiverImg);
    InMiddle(heading, table, block, footer, 0);
    InMiddle(heading, table, block, footer, 1);
  }

  /** Only the third part of a four-part list pastes signatures. */
  lemma PastesOfMiddle(a: seq<Command>, b: seq<Command>, c: seq<Command>, d: seq<Command>)
    requires SignaturePastes(a) == [] && SignaturePastes(b) == [] && SignaturePastes(d) == []
    ensures SignaturePastes(a + b + c + d) == SignaturePastes(c)
  {
    SignaturePastesConcat(a, b);
    SignaturePastesConcat(a + b, c);
    SignaturePastesConcat(a + b + c, d);
  }

  lemma InMiddle(a: seq<Command>, b: seq<Command>, c: seq<Command>, d: seq<Command>, i: nat)
    requires i < |c|
    ensures c[i] in a + b + c + d
  {
    assert (a + b + c + d)[|a| + |b| + i] == c[i];
  }

  /** Both signatures lie wholly on the 1754 px canvas only while there are at
      most 22 materials; from 23 on they are pasted (partly) below its edge. */
  lemma SignaturesOnCanvas(materials: seq<Material>)
    ensures var footerY := TableBottom(materials) + 200;
      footerY - 120 + SignHeight <= Height <==> |materials| <= 22
  {
  }
}
