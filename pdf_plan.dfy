/** Signature placement (backend/utils/pdfUtils.js), as a plan of abstract
    draw commands instead of PDF bytes. PDF user space has its origin at the
    bottom-left corner of the page (ISO 32000-1, section 8.3.2.3), while the
    fields are placed in a top-left-origin space; the plan converts between
    the two. Date formatting, image decoding and the characters the
    embedded font can encode belong to the runtime and the PDF library, so
    they enter as the functions of a `Renderer`. */
module PdfPlan {
  import opened Base
  import opened DocumentModel

  datatype ImageFormat = Png | Jpeg

  /** One drawing call on a page (0-based index into the output's pages). */
  datatype Draw =
    | Rectangle(page: nat, x: real, y: real, width: real, height: real)
    | Image(page: nat, format: ImageFormat, payload: string, x: real, y: real, width: real, height: real)
    | Text(page: nat, text: string, x: real, y: real, size: real)
    | Line(page: nat, x1: real, y1: real, x2: real, y2: real)

  /** What the plan needs from the runtime and the PDF library:
      `toLocaleDateString`, `toISOString` (on valid dates), whether the
      library accepts the decoded bytes as an image of the given format, and
      which characters the embedded standard font can encode. */
  datatype Renderer = Renderer(
    localeDate: Time -> string,
    isoDate: Time -> string,
    decodes: (string, ImageFormat) -> bool,
    encodes: char -> bool)

  /** The Helvetica standard font is embedded with the WinAnsi encoding
      (ISO 32000-1, annex D.2). Of that encoding the plan relies on two facts:
      it covers printable ASCII, and it has no check mark (U+2713). */
  ghost predicate WinAnsi(r: Renderer) {
    && !r.encodes('\U{2713}')
    && forall c: char :: ' ' <= c <= '~' ==> r.encodes(c)
  }

  /** `drawText` encodes its text with the font and throws on the first
      character the encoding lacks. */
  predicate Encodes(r: Renderer, text: string) {
    forall i :: 0 <= i < |text| ==> r.encodes(text[i])
  }

  /** A draw the page accepts: only a text can be refused. */
  predicate Drawable(r: Renderer, d: Draw) {
    d.Text? ==> Encodes(r, d.text)
  }

  predicate AllDrawable(r: Renderer, ds: seq<Draw>) {
    forall i :: 0 <= i < |ds| ==> Drawable(r, ds[i])
  }

  /** Printable ASCII, U+0020 to U+007E. */
  predicate Printable(s: string) {
    forall i :: 0 <= i < |s| ==> ' ' <= s[i] <= '~'
  }

  /** The marker in front of each signer line of the audit page, as written. */
  const CheckMark: string := "\U{2713}"
  /** A marker the standard font can encode. */
  const PlainMark: string := "[x]"

  /** The size of a page added without arguments: the PDF library's default,
      A4 in points. */
  const AuditPage: PageSize := PageSize(595.28, 841.89)
  const LineHeight: real := 20.0
  /** Where the first signer line of the audit page goes: one line below the
      "Document generated" line at height - 100. */
  const SummaryTop: real := AuditPage.height - 100.0 - LineHeight
  /** The cursor drop per listed signer: 0.8 + 0.8 + 1.2 line heights. */
  const SignerBlock: real := 56.0

  // ---------------------------------------------------------------------
  // One field

  /** `signers.find(s => s.email === field.signerEmail && s.status === 'signed')`. */
  function SignerFor(f: Field, ss: seq<Signer>): Option<nat> {
    FindFirst(ss, (s: Signer) => s.email == f.signerEmail && s.status == SignerStatus.Signed)
  }

  /** `(field.page || 1) - 1`. */
  function PageIndex(page: int): int {
    (if page == 0 then 1 else page) - 1
  }

  /** Bottom edge of the box in PDF user space; uses the stored height even
      when it is 0. */
  function PdfY(pageHeight: real, f: Field): real {
    pageHeight - f.y - f.height
  }

  /** `field.width || 200` and `field.height || 60`. */
  function BoxWidth(f: Field): real {
    if f.width != 0.0 then f.width else DefaultFieldWidth
  }

  function BoxHeight(f: Field): real {
    if f.height != 0.0 then f.height else DefaultFieldHeight
  }

  function NameOrEmail(s: Signer): string {
    Or(s.name, s.email)
  }

  /** `new Date(signedAt).toLocaleDateString()`; an absent date prints as
      "Invalid Date". */
  function LocaleDateOf(r: Renderer, t: Option<Time>): string {
    match t
    case None => "Invalid Date"
    case Some(v) => r.localeDate(v)
  }

  /** A data URL (RFC 2397, section 3) whose media type mentions image/png is
      embedded as PNG; every other image data URL is tried as JPEG. */
  function FormatOf(data: string): ImageFormat {
    if Contains(data, "data:image/png") then Png else Jpeg
  }

  /** The draws of one field, in the top-left-origin coordinates of `f`. The
      field is skipped when no signed signer has its email, when the first
      such signer has no signature data, or when its page does not exist. */
  function FieldCommands(f: Field, ss: seq<Signer>, pages: seq<PageSize>, r: Renderer): seq<Draw> {
    match SignerFor(f, ss)
    case None => []
    case Some(k) =>
      var s := ss[k];
      var pi := PageIndex(f.page);
      if s.signatureData == "" || !(0 <= pi < |pages|) then []
      else
        var x, y, w, h := f.x, PdfY(pages[pi].height, f), BoxWidth(f), BoxHeight(f);
        [Rectangle(pi, x, y, w, h)]
        + SignatureMark(pi, s, x, y, w, h, r)
        + [Text(pi, NameOrEmail(s) + " | " + LocaleDateOf(r, s.signedAt), x + 5.0, y + 4.0, 7.0)]
  }

  /** The image inset in the box, or the name or email as text when the
      image cannot be decoded; nothing when the data is not an image data URL. */
  function SignatureMark(pi: nat, s: Signer, x: real, y: real, w: real, h: real, r: Renderer): seq<Draw> {
    if !StartsWith(s.signatureData, "data:image") then []
    else
      var format := FormatOf(s.signatureData);
      var payload := AfterFirstComma(s.signatureData);
      if payload.Some? && r.decodes(payload.value, format) then
        [Image(pi, format, payload.value, x + 5.0, y + 5.0, w - 10.0, h - 25.0)]
      else
        [Text(pi, NameOrEmail(s), x + 10.0, y + h / 2.0, 14.0)]
  }

  /** The draws of all fields, in field order. */
  function FieldsPlan(fields: seq<Field>, ss: seq<Signer>, pages: seq<PageSize>, r: Renderer): seq<Draw> {
    ConcatMap(fields, FieldDrawer(ss, pages, r))
  }

  function FieldDrawer(ss: seq<Signer>, pages: seq<PageSize>, r: Renderer): Field -> seq<Draw> {
    f => FieldCommands(f, ss, pages, r)
  }

  // ---------------------------------------------------------------------
  // The appended audit page

  function SummaryHeader(ap: nat, r: Renderer, now: Time): seq<Draw> {
    var h := AuditPage.height;
    [ Text(ap, "DOCUMENT AUDIT TRAIL", 50.0, h - 60.0, 18.0),
      Line(ap, 50.0, h - 70.0, AuditPage.width - 50.0, h - 70.0),
      Text(ap, "Document generated: " + r.isoDate(now), 50.0, h - 100.0, 10.0) ]
  }

  /** The three lines listing one signed signer, the first at height `y`,
      each signer line opening with `mark`. */
  function SignerLines(ap: nat, mark: string, s: Signer, y: real, r: Renderer): seq<Draw> {
    [ Text(ap, mark + " Signed by: " + s.email, 50.0, y, 10.0),
      Text(ap, "  Name: " + Or(s.name, "N/A") + " | Date: " + r.isoDate(s.signedAt.GetOr(0)),
        50.0, y - 16.0, 9.0),
      Text(ap, "  IP: " + Or(s.ipAddress, "N/A"), 50.0, y - 32.0, 9.0) ]
  }

  /** The signer lines of the audit page, with the cursor starting at `y`. */
  function SummaryLines(ap: nat, mark: string, ss: seq<Signer>, y: real, r: Renderer): seq<Draw> {
    if |ss| == 0 then []
    else if ss[0].status == SignerStatus.Signed then
      SignerLines(ap, mark, ss[0], y, r) + SummaryLines(ap, mark, ss[1..], y - SignerBlock, r)
    else SummaryLines(ap, mark, ss[1..], y, r)
  }

  /** Everything drawn on the appended page. */
  function AuditDraws(ap: nat, mark: string, ss: seq<Signer>, r: Renderer, now: Time): seq<Draw> {
    SummaryHeader(ap, r, now) + SummaryLines(ap, mark, ss, SummaryTop, r)
  }

  /** `toISOString` throws on an invalid date, so generation fails when a
      signed signer has no signing time. */
  predicate SignedAreDated(ss: seq<Signer>) {
    forall i :: 0 <= i < |ss| && ss[i].status == SignerStatus.Signed ==> ss[i].signedAt.Some?
  }

  /** The draws of `embedSignatures` when nothing throws: the field draws on
      the original pages, then the audit page appended after them. */
  function Layout(mark: string, pages: seq<PageSize>, fields: seq<Field>, ss: seq<Signer>, r: Renderer, now: Time)
    : seq<Draw>
  {
    FieldsPlan(fields, ss, pages, r) + AuditDraws(|pages|, mark, ss, r, now)
  }

  /** `embedSignatures` with `mark` in front of the signer lines: the layout,
      unless a `drawText` meets a character the font cannot encode or a
      signed signer has no signing time. Whether an image decodes never
      decides success. */
  function Plan(mark: string, pages: seq<PageSize>, fields: seq<Field>, ss: seq<Signer>, r: Renderer, now: Time)
    : (result: Result<seq<Draw>>)
    ensures result.Ok? <==> SignedAreDated(ss) && AllDrawable(r, Layout(mark, pages, fields, ss, r, now))
    ensures result.Ok? ==> result.value == Layout(mark, pages, fields, ss, r, now)
    ensures result.Err? ==> result.error == ServerError
  {
    var layout := Layout(mark, pages, fields, ss, r, now);
    if SignedAreDated(ss) && AllDrawable(r, layout) then Ok(layout) else Err(ServerError)
  }

  /** The image, or its text fallback, of one field; the fallback's
      `drawText` sits in the `catch` block, so its failure escapes. The
      method follows the handler's statements in order, with the failure
      each can raise; `SignatureMark` is the value it is proved to draw. */
  method DrawMark(pageIndex: nat, signer: Signer, pdfX: real, pdfY: real, sigWidth: real, sigHeight: real,
                  r: Renderer) returns (drawn: Result<seq<Draw>>)
    ensures drawn.Ok? <==> AllDrawable(r, SignatureMark(pageIndex, signer, pdfX, pdfY, sigWidth, sigHeight, r))
    ensures drawn.Ok? ==> drawn.value == SignatureMark(pageIndex, signer, pdfX, pdfY, sigWidth, sigHeight, r)
    ensures drawn.Err? ==> drawn.error == ServerError
  {
    if !StartsWith(signer.signatureData, "data:image") {
      return Ok([]);
    }
    var format := if Contains(signer.signatureData, "data:image/png") then Png else Jpeg;
    var payload := AfterFirstComma(signer.signatureData);
    if payload.Some? && r.decodes(payload.value, format) {
      return Ok([Image(pageIndex, format, payload.value, pdfX + 5.0, pdfY + 5.0, sigWidth - 10.0, sigHeight - 25.0)]);
    }
    var fallback := NameOrEmail(signer);
    if !Encodes(r, fallback) {
      ghost var planned := SignatureMark(pageIndex, signer, pdfX, pdfY, sigWidth, sigHeight, r);
      assert planned == [Text(pageIndex, fallback, pdfX + 10.0, pdfY + sigHeight / 2.0, 14.0)];
      assert !Drawable(r, planned[0]);
      return Err(ServerError);
    }
    return Ok([Text(pageIndex, fallback, pdfX + 10.0, pdfY + sigHeight / 2.0, 14.0)]);
  }

  /** The body of `embedSignatures`' loop over the fields, for one field,
      following the handler's statements in order with the failure each can
      raise; `FieldCommands` is the value it is proved to draw. */
  method DrawField(field: Field, ss: seq<Signer>, pages: seq<PageSize>, r: Renderer) returns (cmds: Result<seq<Draw>>)
    ensures cmds.Ok? <==> AllDrawable(r, FieldCommands(field, ss, pages, r))
    ensures cmds.Ok? ==> cmds.value == FieldCommands(field, ss, pages, r)
    ensures cmds.Err? ==> cmds.error == ServerError
  {
    var found := SignerFor(field, ss);
    if found.None? || ss[found.value].signatureData == "" {
      return Ok([]);
    }
    var signer := ss[found.value];
    var pageIndex := PageIndex(field.page);
    if pageIndex < 0 || pageIndex >= |pages| {
      return Ok([]);
    }
    var pageHeight := pages[pageIndex].height;
    var pdfX := field.x;
    var pdfY := pageHeight - field.y - field.height;
    var sigWidth := if field.width != 0.0 then field.width else DefaultFieldWidth;
    var sigHeight := if field.height != 0.0 then field.height else DefaultFieldHeight;
    var box := Rectangle(pageIndex, pdfX, pdfY, sigWidth, sigHeight);
    var drawn := DrawMark(pageIndex, signer, pdfX, pdfY, sigWidth, sigHeight, r);
    ghost var planned := FieldCommands(field, ss, pages, r);
    ghost var mark := SignatureMark(pageIndex, signer, pdfX, pdfY, sigWidth, sigHeight, r);
    var signerLabel := NameOrEmail(signer) + " | " + LocaleDateOf(r, signer.signedAt);
    var labelDraw := Text(pageIndex, signerLabel, pdfX + 5.0, pdfY + 4.0, 7.0);
    assert planned == [box] + mark + [labelDraw];
    BoxedDrawable(r, box, mark, labelDraw);
    if drawn.Err? {
      return Err(ServerError);
    }
    if !Encodes(r, signerLabel) {
      assert !Drawable(r, labelDraw);
      return Err(ServerError);
    }
    return Ok([box] + drawn.value + [labelDraw]);
  }

  /** `embedSignatures`, as written (with the check mark): a pass over the
      fields that draws onto the existing pages, then the audit page. */
  method EmbedSignatures(pages: seq<PageSize>, fields: seq<Field>, ss: seq<Signer>, r: Renderer, now: Time)
    returns (result: Result<seq<Draw>>)
    ensures result == Plan(CheckMark, pages, fields, ss, r, now)
  {
    ghost var audit := AuditDraws(|pages|, CheckMark, ss, r, now);
    var draws: seq<Draw> := [];
    for i := 0 to |fields|
      invariant draws == FieldsPlan(fields[..i], ss, pages, r)
      invariant AllDrawable(r, draws)
    {
      var cmds := DrawField(fields[i], ss, pages, r);
      if cmds.Err? {
        FieldsPlanAt(fields, i, ss, pages, r);
        var before := FieldsPlan(fields[..i], ss, pages, r);
        var here := FieldCommands(fields[i], ss, pages, r);
        AllDrawableAppend(r, before + here, FieldsPlan(fields[i + 1..], ss, pages, r));
        AllDrawableAppend(r, before, here);
        AllDrawableAppend(r, FieldsPlan(fields, ss, pages, r), audit);
        return Err(ServerError);
      }
      AllDrawableAppend(r, draws, cmds.value);
      assert fields[..i + 1][..i] == fields[..i];
      draws := draws + cmds.value;
    }
    assert fields[..|fields|] == fields;
    AllDrawableAppend(r, draws, audit);
    var page := DrawAuditPage(|pages|, ss, r, now);
    if page.Err? {
      return Err(page.error);
    }
    return Ok(draws + page.value);
  }

  /** The second half of `embedSignatures`: the page appended after the
      original pages, with its header and the `yPos` cursor moving down one
      signer block per signed signer. */
  method DrawAuditPage(auditPage: nat, ss: seq<Signer>, r: Renderer, now: Time) returns (result: Result<seq<Draw>>)
    ensures result.Ok? <==> SignedAreDated(ss) && AllDrawable(r, AuditDraws(auditPage, CheckMark, ss, r, now))
    ensures result.Err? ==> result.error == ServerError
    ensures result.Ok? ==> result.value == AuditDraws(auditPage, CheckMark, ss, r, now)
  {
    ghost var header := SummaryHeader(auditPage, r, now);
    ghost var all := AuditDraws(auditPage, CheckMark, ss, r, now);
    AllDrawableAppend(r, header, SummaryLines(auditPage, CheckMark, ss, SummaryTop, r));
    var auditHeight := AuditPage.height;
    var title := "DOCUMENT AUDIT TRAIL";
    if !Encodes(r, title) {
      assert !Drawable(r, header[0]);
      return Err(ServerError);
    }
    var draws := [Text(auditPage, title, 50.0, auditHeight - 60.0, 18.0),
                  Line(auditPage, 50.0, auditHeight - 70.0, AuditPage.width - 50.0, auditHeight - 70.0)];
    var yPos := auditHeight - 100.0;
    var generated := "Document generated: " + r.isoDate(now);
    if !Encodes(r, generated) {
      assert !Drawable(r, header[2]);
      return Err(ServerError);
    }
    draws := draws + [Text(auditPage, generated, 50.0, yPos, 10.0)];
    assert AllDrawable(r, draws);
    yPos := yPos - LineHeight;
    for j := 0 to |ss|
      invariant draws + SummaryLines(auditPage, CheckMark, ss[j..], yPos, r) == all
      invariant AllDrawable(r, draws)
      invariant forall i :: 0 <= i < j && ss[i].status == SignerStatus.Signed ==> ss[i].signedAt.Some?
    {
      var signer := ss[j];
      assert ss[j..][1..] == ss[j + 1..];
      if signer.status == SignerStatus.Signed {
        ghost var lines := SignerLines(auditPage, CheckMark, signer, yPos, r);
        ghost var rest := SummaryLines(auditPage, CheckMark, ss[j + 1..], yPos - SignerBlock, r);
        assert all == draws + lines + rest;
        AllDrawableAppend(r, draws + lines, rest);
        AllDrawableAppend(r, draws, lines);
        var drawn, yNext := DrawSignerLines(auditPage, signer, yPos, r);
        if drawn.Err? {
          return Err(ServerError);
        }
        draws := draws + drawn.value;
        yPos := yNext;
      }
    }
    assert ss[|ss|..] == [];
    return Ok(draws);
  }

  /** One signed signer's three lines on the audit page, the cursor moving
      down 0.8, 0.8 and 1.2 line heights. */
  method DrawSignerLines(auditPage: nat, signer: Signer, y: real, r: Renderer)
    returns (drawn: Result<seq<Draw>>, yPos: real)
    ensures drawn.Ok? <==> signer.signedAt.Some? && AllDrawable(r, SignerLines(auditPage, CheckMark, signer, y, r))
    ensures drawn.Err? ==> drawn.error == ServerError
    ensures drawn.Ok? ==> drawn.value == SignerLines(auditPage, CheckMark, signer, y, r)
    ensures yPos == y - SignerBlock
  {
    ghost var lines := SignerLines(auditPage, CheckMark, signer, y, r);
    yPos := y;
    var signedBy := CheckMark + " Signed by: " + signer.email;
    if !Encodes(r, signedBy) {
      assert !Drawable(r, lines[0]);
      return Err(ServerError), y - SignerBlock;
    }
    yPos := yPos - LineHeight * 0.8;
    if signer.signedAt.None? {
      return Err(ServerError), y - SignerBlock;
    }
    var dated := "  Name: " + Or(signer.name, "N/A") + " | Date: " + r.isoDate(signer.signedAt.value);
    if !Encodes(r, dated) {
      assert !Drawable(r, lines[1]);
      return Err(ServerError), y - SignerBlock;
    }
    yPos := yPos - LineHeight * 0.8;
    var ip := "  IP: " + Or(signer.ipAddress, "N/A");
    if !Encodes(r, ip) {
      assert !Drawable(r, lines[2]);
      return Err(ServerError), y - SignerBlock;
    }
    yPos := yPos - LineHeight * 1.2;
    drawn := Ok([Text(auditPage, signedBy, 50.0, y, 10.0), Text(auditPage, dated, 50.0, y - 16.0, 9.0),
                 Text(auditPage, ip, 50.0, y - 32.0, 9.0)]);
  }

  /** What writing the output file does: the file name and path it was
      written under, or a failure of the file system. */
  datatype WriteOutcome = Written(filename: string, path: string) | WriteFailed

  datatype SavedPdf = SavedPdf(filename: string, path: string, draws: seq<Draw>)

  /** `saveSignedPdf`: generate the plan, then write it; either step may
      throw, and the caller sees the failure. */
  method SaveSignedPdf(pages: seq<PageSize>, fields: seq<Field>, ss: seq<Signer>, r: Renderer, now: Time,
                       write: WriteOutcome)
    returns (result: Result<SavedPdf>)
    ensures result.Ok? <==> Plan(CheckMark, pages, fields, ss, r, now).Ok? && write.Written?
    ensures result.Err? ==> result.error == ServerError
    ensures result.Ok? ==> result.value == SavedPdf(write.filename, write.path, Plan(CheckMark, pages, fields, ss, r, now).value)
  {
    var plan := EmbedSignatures(pages, fields, ss, r, now);
    if plan.Err? {
      return Err(plan.error);
    }
    if write.WriteFailed? {
      return Err(ServerError);
    }
    return Ok(SavedPdf(write.filename, write.path, plan.value));
  }

  /** Draws concatenate: a list is accepted exactly when both parts are. */
  lemma AllDrawableAppend(r: Renderer, a: seq<Draw>, b: seq<Draw>)
    ensures AllDrawable(r, a + b) <==> AllDrawable(r, a) && AllDrawable(r, b)
  {
    if AllDrawable(r, a + b) {
      forall i | 0 <= i < |a| ensures Drawable(r, a[i]) {
        assert (a + b)[i] == a[i];
      }
      forall i | 0 <= i < |b| ensures Drawable(r, b[i]) {
        assert (a + b)[|a| + i] == b[i];
      }
    }
  }

  /** A field's box never fails; its mark and its label decide. */
  lemma BoxedDrawable(r: Renderer, box: Draw, mark: seq<Draw>, labelDraw: Draw)
    requires box.Rectangle? && labelDraw.Text?
    ensures AllDrawable(r, [box] + mark + [labelDraw]) <==> AllDrawable(r, mark) && Encodes(r, labelDraw.text)
  {
    AllDrawableAppend(r, [box] + mark, [labelDraw]);
    AllDrawableAppend(r, [box], mark);
    assert AllDrawable(r, [box]) by { assert [box][0] == box; }
    assert AllDrawable(r, [labelDraw]) <==> Encodes(r, labelDraw.text) by { assert [labelDraw][0] == labelDraw; }
  }

  /** The field draws split around the `i`-th field. */
  lemma FieldsPlanAt(fields: seq<Field>, i: nat, ss: seq<Signer>, pages: seq<PageSize>, r: Renderer)
    requires i < |fields|
    ensures FieldsPlan(fields, ss, pages, r)
      == FieldsPlan(fields[..i], ss, pages, r) + FieldCommands(fields[i], ss, pages, r)
         + FieldsPlan(fields[i + 1..], ss, pages, r)
  {
    var front := fields[..i + 1];
    assert fields == front + fields[i + 1..];
    FieldsPlanAppend(front, fields[i + 1..], ss, pages, r);
    assert front[..i] == fields[..i] && front[i] == fields[i];
    assert FieldDrawer(ss, pages, r)(fields[i]) == FieldCommands(fields[i], ss, pages, r);
  }

  // ---------------------------------------------------------------------
  // Properties of the plan

  /** The conversion of a field's box to PDF user space is undone by the
      reverse conversion, and on a 792-point page a field at y = 100 with
      height 60 has its bottom edge at 632. The bottom edge uses the stored
      height while the box uses the 60-point fallback, so the drawn box's top
      edge meets the field's top exactly when the stored height is not 0; a
      field of height 0 gets a box reaching 60 points above its top. */
  lemma CoordinateConversion(pageHeight: real, f: Field)
    ensures pageHeight - PdfY(pageHeight, f) - f.height == f.y
    ensures f.y == 100.0 && f.height == 60.0 && pageHeight == 792.0 ==> PdfY(pageHeight, f) == 632.0
    ensures PdfY(pageHeight, f) + BoxHeight(f) == pageHeight - f.y <==> f.height != 0.0
    ensures f.height == 0.0 ==> PdfY(pageHeight, f) + BoxHeight(f) == pageHeight - f.y + DefaultFieldHeight
  {
  }

  /** A field is drawn exactly when the first signed signer with its email has
      signature data and its page exists; a drawn field starts with its box,
      at the converted origin, and ends with the signer label. */
  lemma FieldDrawnIff(f: Field, ss: seq<Signer>, pages: seq<PageSize>, r: Renderer)
    ensures var cmds := FieldCommands(f, ss, pages, r);
      cmds != [] <==>
        SignerFor(f, ss).Some? && ss[SignerFor(f, ss).value].signatureData != ""
        && 0 <= PageIndex(f.page) < |pages|
    ensures var cmds := FieldCommands(f, ss, pages, r);
      cmds != [] ==>
        var pi := PageIndex(f.page);
        var y := pages[pi].height - f.y - f.height;
        var s := ss[SignerFor(f, ss).value];
        && s.status == SignerStatus.Signed && s.email == f.signerEmail
        && cmds[0] == Rectangle(pi, f.x, y, BoxWidth(f), BoxHeight(f))
        && cmds[|cmds| - 1] == Text(pi, NameOrEmail(s) + " | " + LocaleDateOf(r, s.signedAt), f.x + 5.0, y + 4.0, 7.0)
        && (|cmds| == 3 <==> StartsWith(s.signatureData, "data:image"))
        && (|cmds| == 2 <==> !StartsWith(s.signatureData, "data:image"))
  {
  }

  /** The signature image stays inside its box whenever the box is at least
      10 wide and 25 high. */
  lemma ImageInsideBox(f: Field, ss: seq<Signer>, pages: seq<PageSize>, r: Renderer, d: Draw)
    requires d in FieldCommands(f, ss, pages, r) && d.Image?
    requires BoxWidth(f) >= 10.0 && BoxHeight(f) >= 25.0
    ensures var rect := FieldCommands(f, ss, pages, r)[0];
      && rect.Rectangle? && d.page == rect.page
      && rect.x <= d.x && d.x + d.width <= rect.x + rect.width
      && rect.y <= d.y && d.y + d.height <= rect.y + rect.height
  {
  }

  /** Field draws concatenate in field order. */
  lemma FieldsPlanAppend(a: seq<Field>, b: seq<Field>, ss: seq<Signer>, pages: seq<PageSize>, r: Renderer)
    ensures FieldsPlan(a + b, ss, pages, r) == FieldsPlan(a, ss, pages, r) + FieldsPlan(b, ss, pages, r)
  {
    ConcatMapAppend(a, b, FieldDrawer(ss, pages, r));
  }

  /** Field draws go only onto pages of the original document, and only a
      signed signer's signature is ever placed. */
  lemma {:induction false} FieldsPlanSound(fields: seq<Field>, ss: seq<Signer>, pages: seq<PageSize>, r: Renderer)
    ensures forall d :: d in FieldsPlan(fields, ss, pages, r) ==> d.page < |pages|
    ensures forall d :: d in FieldsPlan(fields, ss, pages, r) && d.Image? ==>
      exists s :: s in ss && s.status == SignerStatus.Signed && AfterFirstComma(s.signatureData) == Some(d.payload)
  {
    if |fields| > 0 {
      FieldsPlanSound(fields[..|fields| - 1], ss, pages, r);
      var f := fields[|fields| - 1];
      var cmds := FieldCommands(f, ss, pages, r);
      assert FieldsPlan(fields, ss, pages, r) == FieldsPlan(fields[..|fields| - 1], ss, pages, r) + cmds;
      if cmds != [] {
        var s := ss[SignerFor(f, ss).value];
        assert s in ss;
      }
    }
  }

  /** Every audit-page draw is on the one page after the original pages. */
  lemma {:induction false} SummaryOnAuditPage(ap: nat, mark: string, ss: seq<Signer>, y: real, r: Renderer)
    ensures forall d :: d in SummaryLines(ap, mark, ss, y, r) ==> d.page == ap
  {
    if |ss| > 0 {
      SummaryOnAuditPage(ap, mark, ss[1..], y - SignerBlock, r);
      SummaryOnAuditPage(ap, mark, ss[1..], y, r);
    }
  }

  function SignedSigners(ss: seq<Signer>): seq<Signer> {
    Filter(ss, (s: Signer) => s.status == SignerStatus.Signed)
  }

  /** The audit page lists the signed signers, in list order, three lines
      each, the k-th one's lines at k signer blocks below the start. */
  lemma {:induction false} SummaryLayout(ap: nat, mark: string, ss: seq<Signer>, y: real, r: Renderer, k: nat)
    requires k < |SignedSigners(ss)|
    ensures 3 * k + 3 <= |SummaryLines(ap, mark, ss, y, r)|
    ensures SummaryLines(ap, mark, ss, y, r)[3 * k..3 * k + 3]
      == SignerLines(ap, mark, SignedSigners(ss)[k], y - SignerBlock * (k as real), r)
  {
    var rest := ss[1..];
    var lines := SummaryLines(ap, mark, ss, y, r);
    if ss[0].status == SignerStatus.Signed {
      assert SignedSigners(ss) == [ss[0]] + SignedSigners(rest);
      var tail := SummaryLines(ap, mark, rest, y - SignerBlock, r);
      assert lines == SignerLines(ap, mark, ss[0], y, r) + tail;
      if k > 0 {
        SummaryLayout(ap, mark, rest, y - SignerBlock, r, k - 1);
        assert lines[3 * k..3 * k + 3] == tail[3 * (k - 1)..3 * (k - 1) + 3];
        assert y - SignerBlock - SignerBlock * ((k - 1) as real) == y - SignerBlock * (k as real);
      }
    } else {
      assert SignedSigners(ss) == SignedSigners(rest);
      SummaryLayout(ap, mark, rest, y, r, k);
    }
  }

  lemma {:induction false} SummaryLength(ap: nat, mark: string, ss: seq<Signer>, y: real, r: Renderer)
    ensures |SummaryLines(ap, mark, ss, y, r)| == 3 * |SignedSigners(ss)|
  {
    if |ss| > 0 {
      SummaryLength(ap, mark, ss[1..], y - SignerBlock, r);
      SummaryLength(ap, mark, ss[1..], y, r);
    }
  }

  /** The layout draws every field onto an original page and appends exactly
      one page: the header and three lines per signed signer. A successful
      plan is this layout. */
  lemma PlanShape(mark: string, pages: seq<PageSize>, fields: seq<Field>, ss: seq<Signer>, r: Renderer, now: Time)
    ensures var draws := Layout(mark, pages, fields, ss, r, now);
      var n := |FieldsPlan(fields, ss, pages, r)|;
      && |draws| == n + 3 + 3 * |SignedSigners(ss)|
      && (forall i :: 0 <= i < n ==> draws[i].page < |pages|)
      && (forall i :: n <= i < |draws| ==> draws[i].page == |pages|)
  {
    var fp := FieldsPlan(fields, ss, pages, r);
    var header := SummaryHeader(|pages|, r, now);
    var sl := SummaryLines(|pages|, mark, ss, SummaryTop, r);
    FieldsPlanSound(fields, ss, pages, r);
    SummaryOnAuditPage(|pages|, mark, ss, SummaryTop, r);
    SummaryLength(|pages|, mark, ss, SummaryTop, r);
    assert forall d :: d in header ==> d.page == |pages|;
    PagesSplit(fp, header + sl, |pages|);
    assert Layout(mark, pages, fields, ss, r, now) == fp + (header + sl);
  }

  /** Draws that all lie before page `n`, followed by draws that all lie on
      page `n`. */
  lemma PagesSplit(before: seq<Draw>, on: seq<Draw>, n: nat)
    requires forall d :: d in before ==> d.page < n
    requires forall d :: d in on ==> d.page == n
    ensures forall i :: 0 <= i < |before| ==> (before + on)[i].page < n
    ensures forall i :: |before| <= i < |before + on| ==> (before + on)[i].page == n
  {
    forall i | 0 <= i < |before| ensures (before + on)[i].page < n {
      assert (before + on)[i] == before[i] && before[i] in before;
    }
    forall i | |before| <= i < |before + on| ensures (before + on)[i].page == n {
      assert (before + on)[i] == on[i - |before|] && on[i - |before|] in on;
    }
  }

  // ---------------------------------------------------------------------
  // What the standard font can draw

  /** The strings of a signed signer that the plan draws: its email, name and
      address, and its signing time as the runtime formats it. */
  predicate PlainSigner(r: Renderer, s: Signer) {
    && Printable(s.email) && Printable(s.name) && Printable(s.ipAddress)
    && (s.signedAt.Some? ==> Printable(r.localeDate(s.signedAt.value)) && Printable(r.isoDate(s.signedAt.value)))
  }

  predicate PlainSigners(r: Renderer, ss: seq<Signer>) {
    forall i :: 0 <= i < |ss| && ss[i].status == SignerStatus.Signed ==> PlainSigner(r, ss[i])
  }

  /** A marker the font cannot encode makes the audit page throw as soon as
      one signer is listed. */
  lemma {:induction false} MarkBlocksSummary(ap: nat, mark: string, ss: seq<Signer>, y: real, r: Renderer, k: nat)
    requires k < |ss| && ss[k].status == SignerStatus.Signed
    requires !Encodes(r, mark)
    ensures !AllDrawable(r, SummaryLines(ap, mark, ss, y, r))
  {
    var lines := SummaryLines(ap, mark, ss, y, r);
    if ss[0].status == SignerStatus.Signed {
      var text := mark + " Signed by: " + ss[0].email;
      var j :| 0 <= j < |mark| && !r.encodes(mark[j]);
      assert text[j] == mark[j];
      assert lines[0] == Text(ap, text, 50.0, y, 10.0);
      assert !Drawable(r, lines[0]);
    } else {
      MarkBlocksSummary(ap, mark, ss[1..], y, r, k - 1);
    }
  }

  /** As written, a document with a signed signer never gets its signed PDF:
      the audit page draws "✓ Signed by: ..." in a font without the check
      mark, so `embedSignatures` throws. */
  lemma CheckMarkBlocksPlan(pages: seq<PageSize>, fields: seq<Field>, ss: seq<Signer>, r: Renderer, now: Time, k: nat)
    requires WinAnsi(r)
    requires k < |ss| && ss[k].status == SignerStatus.Signed
    ensures Plan(CheckMark, pages, fields, ss, r, now) == Err(ServerError)
  {
    assert CheckMark[0] == '\U{2713}';
    MarkBlocksSummary(|pages|, CheckMark, ss, SummaryTop, r, k);
    AllDrawableAppend(r, SummaryHeader(|pages|, r, now), SummaryLines(|pages|, CheckMark, ss, SummaryTop, r));
    AllDrawableAppend(r, FieldsPlan(fields, ss, pages, r), AuditDraws(|pages|, CheckMark, ss, r, now));
  }

  /** With printable data, the plan as written succeeds exactly when nobody
      has signed. */
  lemma CheckMarkPlanIff(pages: seq<PageSize>, fields: seq<Field>, ss: seq<Signer>, r: Renderer, now: Time)
    requires WinAnsi(r) && Printable(r.isoDate(now))
    ensures Plan(CheckMark, pages, fields, ss, r, now).Ok? <==> !AnyHas(ss, SignerStatus.Signed)
  {
    if AnyHas(ss, SignerStatus.Signed) {
      var k :| 0 <= k < |ss| && ss[k].status == SignerStatus.Signed;
      CheckMarkBlocksPlan(pages, fields, ss, r, now, k);
    } else {
      PlanSucceeds(CheckMark, pages, fields, ss, r, now);
    }
  }

  /** With a marker the font encodes, generation succeeds exactly when every
      signed signer has a signing time, as long as the signers' strings and
      the runtime's dates are printable. */
  lemma PlainMarkPlans(pages: seq<PageSize>, fields: seq<Field>, ss: seq<Signer>, r: Renderer, now: Time)
    requires WinAnsi(r) && Printable(r.isoDate(now)) && PlainSigners(r, ss)
    ensures Plan(PlainMark, pages, fields, ss, r, now).Ok? <==> SignedAreDated(ss)
  {
    if SignedAreDated(ss) {
      assert Printable(PlainMark);
      PlanSucceeds(PlainMark, pages, fields, ss, r, now);
    }
  }

  lemma PlanSucceeds(mark: string, pages: seq<PageSize>, fields: seq<Field>, ss: seq<Signer>, r: Renderer, now: Time)
    requires WinAnsi(r) && Printable(r.isoDate(now)) && PlainSigners(r, ss) && SignedAreDated(ss)
    requires Printable(mark) || !AnyHas(ss, SignerStatus.Signed)
    ensures Plan(mark, pages, fields, ss, r, now).Ok?
  {
    var header := SummaryHeader(|pages|, r, now);
    assert Printable("DOCUMENT AUDIT TRAIL") && Printable("Document generated: ");
    assert Printable("Document generated: " + r.isoDate(now));
    assert AllDrawable(r, header);
    FieldsPlanDrawable(fields, ss, pages, r);
    SummaryDrawable(|pages|, mark, ss, SummaryTop, r);
    AllDrawableAppend(r, header, SummaryLines(|pages|, mark, ss, SummaryTop, r));
    AllDrawableAppend(r, FieldsPlan(fields, ss, pages, r), AuditDraws(|pages|, mark, ss, r, now));
  }

  /** A field's draws only show a signed signer's name or email and signing
      date, so they are drawable when those are printable. */
  lemma FieldDrawable(f: Field, ss: seq<Signer>, pages: seq<PageSize>, r: Renderer)
    requires WinAnsi(r) && PlainSigners(r, ss) && SignedAreDated(ss)
    ensures AllDrawable(r, FieldCommands(f, ss, pages, r))
  {
    var cmds := FieldCommands(f, ss, pages, r);
    if cmds != [] {
      var k := SignerFor(f, ss).value;
      var s := ss[k];
      assert s.status == SignerStatus.Signed;
      assert PlainSigner(r, s) && s.signedAt.Some?;
      var pi := PageIndex(f.page);
      var x, y, w, h := f.x, PdfY(pages[pi].height, f), BoxWidth(f), BoxHeight(f);
      var mark := SignatureMark(pi, s, x, y, w, h, r);
      assert Printable(NameOrEmail(s));
      assert Printable(" | ");
      assert Printable(NameOrEmail(s) + " | " + LocaleDateOf(r, s.signedAt));
      assert AllDrawable(r, mark);
      assert cmds == [Rectangle(pi, x, y, w, h)] + mark
        + [Text(pi, NameOrEmail(s) + " | " + LocaleDateOf(r, s.signedAt), x + 5.0, y + 4.0, 7.0)];
      AllDrawableAppend(r, [Rectangle(pi, x, y, w, h)], mark);
      AllDrawableAppend(r, [Rectangle(pi, x, y, w, h)] + mark,
        [Text(pi, NameOrEmail(s) + " | " + LocaleDateOf(r, s.signedAt), x + 5.0, y + 4.0, 7.0)]);
    }
  }

  lemma {:induction false} FieldsPlanDrawable(fields: seq<Field>, ss: seq<Signer>, pages: seq<PageSize>, r: Renderer)
    requires WinAnsi(r) && PlainSigners(r, ss) && SignedAreDated(ss)
    ensures AllDrawable(r, FieldsPlan(fields, ss, pages, r))
  {
    if |fields| > 0 {
      var front, last := fields[..|fields| - 1], fields[|fields| - 1];
      FieldsPlanDrawable(front, ss, pages, r);
      FieldDrawable(last, ss, pages, r);
      assert FieldsPlan(fields, ss, pages, r) == FieldsPlan(front, ss, pages, r) + FieldCommands(last, ss, pages, r);
      AllDrawableAppend(r, FieldsPlan(front, ss, pages, r), FieldCommands(last, ss, pages, r));
    }
  }

  lemma {:induction false} SummaryDrawable(ap: nat, mark: string, ss: seq<Signer>, y: real, r: Renderer)
    requires WinAnsi(r) && PlainSigners(r, ss) && SignedAreDated(ss)
    requires Printable(mark) || !AnyHas(ss, SignerStatus.Signed)
    ensures AllDrawable(r, SummaryLines(ap, mark, ss, y, r))
  {
    if |ss| > 0 {
      var rest := ss[1..];
      assert forall i :: 0 <= i < |rest| ==> rest[i] == ss[i + 1];
      assert AnyHas(rest, SignerStatus.Signed) ==> AnyHas(ss, SignerStatus.Signed);
      if ss[0].status == SignerStatus.Signed {
        var s := ss[0];
        SignerLinesDrawable(ap, mark, s, y, r);
        SummaryDrawable(ap, mark, rest, y - SignerBlock, r);
        AllDrawableAppend(r, SignerLines(ap, mark, s, y, r), SummaryLines(ap, mark, rest, y - SignerBlock, r));
      } else {
        SummaryDrawable(ap, mark, rest, y, r);
      }
    }
  }

  lemma SignerLinesDrawable(ap: nat, mark: string, s: Signer, y: real, r: Renderer)
    requires WinAnsi(r) && PlainSigner(r, s) && s.signedAt.Some? && Printable(mark)
    ensures AllDrawable(r, SignerLines(ap, mark, s, y, r))
  {
    assert Printable(" Signed by: ") && Printable("  Name: ") && Printable(" | Date: ")
      && Printable("  IP: ") && Printable("N/A");
    assert Printable(Or(s.name, "N/A")) && Printable(Or(s.ipAddress, "N/A"));
    assert Printable(mark + " Signed by: " + s.email);
    assert Printable("  Name: " + Or(s.name, "N/A") + " | Date: " + r.isoDate(s.signedAt.GetOr(0)));
    assert Printable("  IP: " + Or(s.ipAddress, "N/A"));
  }
}
