/** The token-gated handlers (backend/routes/signatures.js): a signer views,
    signs or rejects through the token of their link, and the owner can
    regenerate the signed PDF. Each handler is a transition of the loaded
    Document, checked in the handler's order, and records what it did in the
    audit store. */
module SignatureRoutes {
  import opened Base
  import opened DocumentModel
  import opened AuditLogModel
  import opened AuditHelper
  import opened PdfPlan

  /** Replacing a signer by one with the same token keeps the token resolving
      to the same position. */
  lemma FindByTokenAfterUpdate(ss: seq<Signer>, token: string, k: nat, s: Signer)
    requires FindByToken(ss, token) == Some(k) && s.token == ss[k].token
    ensures FindByToken(ss[k := s], token) == Some(k)
  {
    var ss' := ss[k := s];
    assert ss'[k].token == token;
    assert forall j :: 0 <= j < k ==> ss'[j] == ss[j];
  }

  // ---------------------------------------------------------------------
  // view: GET /public/:token

  /** The lookup as the handler writes it: the document is loaded with the
      signers' tokens projected out, so the signer list searched by token
      holds no tokens at all. */
  function ProjectedSigners(ss: seq<Signer>): (r: seq<Signer>)
    ensures |r| == |ss| && forall i :: 0 <= i < |ss| ==> r[i] == ss[i].(token := "")
  {
    seq(|ss|, i requires 0 <= i < |ss| => ss[i].(token := ""))
  }

  function ViewLookupAsWritten(ss: seq<Signer>, token: string): Option<nat> {
    FindByToken(ProjectedSigners(ss), token)
  }

  /** As written, the view lookup finds no signer for any token, so every
      view answers 404. */
  lemma ViewLookupAsWrittenFails(ss: seq<Signer>, token: string)
    ensures ViewLookupAsWritten(ss, token).None?
  {
    var ps := ProjectedSigners(ss);
    assert forall i :: 0 <= i < |ps| ==> ps[i].token == "";
  }

  /** One signer holding token "t1": the corrected lookup finds it, the
      lookup as written does not. */
  lemma ViewLookupCounterexample(s: Signer)
    requires s.token == "t1"
    ensures FindByToken([s], "t1") == Some(0)
    ensures ViewLookupAsWritten([s], "t1") == None
  {
    ViewLookupAsWrittenFails([s], "t1");
  }

  /** The view's checks in order: an unknown token (404), an expired link
      (410), an expired document (410). The lookup runs against the full
      signer list. */
  function ViewCheck(ss: seq<Signer>, status: DocStatus, token: string, now: Time): (r: Result<nat>)
    ensures FindByToken(ss, token).None? ==> r == Err(NotFound)
    ensures FindByToken(ss, token).Some? && LinkExpired(ss[FindByToken(ss, token).value], now) ==> r == Err(Gone)
    ensures FindByToken(ss, token).Some? && status == DocStatus.Expired ==> r == Err(Gone)
    ensures r.Ok? <==> FindByToken(ss, token).Some? && !LinkExpired(ss[FindByToken(ss, token).value], now)
                       && status != DocStatus.Expired
    ensures r.Ok? ==> FindByToken(ss, token) == Some(r.value)
  {
    match FindByToken(ss, token)
    case None => Err(NotFound)
    case Some(k) =>
      if LinkExpired(ss[k], now) then Err(Gone)
      else if status == DocStatus.Expired then Err(Gone)
      else Ok(k)
  }

  /** A pending signer becomes `viewed`; any other status stays. */
  function ViewedSigner(s: Signer): Signer {
    if s.status == SignerStatus.Pending then s.(status := SignerStatus.Viewed) else s
  }

  /** Viewing twice is viewing once, and a view never moves a signer to
      `signed` or `rejected` or out of them. */
  lemma ViewedSignerFacts(s: Signer)
    ensures ViewedSigner(ViewedSigner(s)) == ViewedSigner(s)
    ensures ViewedSigner(s).status == SignerStatus.Signed <==> s.status == SignerStatus.Signed
    ensures ViewedSigner(s).status == SignerStatus.Rejected <==> s.status == SignerStatus.Rejected
    ensures ViewedSigner(s).status != SignerStatus.Pending
    ensures ViewedSigner(s).(status := s.status) == s
  {
  }

  /** A view does not change what `updateStatus` would derive. */
  lemma ViewKeepsDerivedStatus(ss: seq<Signer>, k: nat, current: DocStatus)
    requires k < |ss|
    ensures DerivedStatus(ss[k := ViewedSigner(ss[k])], current) == DerivedStatus(ss, current)
  {
    var ss' := ss[k := ViewedSigner(ss[k])];
    assert forall i :: 0 <= i < |ss| ==>
      (ss'[i].status == SignerStatus.Signed <==> ss[i].status == SignerStatus.Signed);
    assert forall i :: 0 <= i < |ss| ==>
      (ss'[i].status == SignerStatus.Rejected <==> ss[i].status == SignerStatus.Rejected);
    assert AnyHas(ss', SignerStatus.Signed) <==> AnyHas(ss, SignerStatus.Signed);
    assert AnyHas(ss', SignerStatus.Rejected) <==> AnyHas(ss, SignerStatus.Rejected);
  }

  /** `signatureFields.filter(f => f.signerEmail === signer.email)`. */
  function FieldsFor(fields: seq<Field>, email: string): (r: seq<Field>)
    ensures forall i :: 0 <= i < |r| ==> r[i] in fields && r[i].signerEmail == email
    ensures forall i :: 0 <= i < |fields| && fields[i].signerEmail == email ==> fields[i] in r
  {
    Filter(fields, (f: Field) => f.signerEmail == email)
  }

  /** What the view returns: the document status, this signer's fields, and
      the signer's email, name and (updated) status. */
  datatype ViewResponse = ViewResponse(
    status: DocStatus, fields: seq<Field>, email: string, name: string, signerStatus: SignerStatus)

  method View(doc: Document, store: AuditStore, token: string, now: Time, req: Request, accepted: bool)
    returns (r: Result<ViewResponse>)
    modifies doc`signers, store
    ensures var check := ViewCheck(old(doc.signers), doc.status, token, now);
      && (r.Ok? <==> check.Ok?)
      && (r.Err? ==> r.error == check.error && doc.signers == old(doc.signers) && store.records == old(store.records))
      && (r.Ok? ==>
            var s := ViewedSigner(old(doc.signers)[check.value]);
            && doc.signers == old(doc.signers)[check.value := s]
            && r.value == ViewResponse(doc.status, FieldsFor(doc.fields, s.email), s.email, s.name, s.status)
            && store.records == old(store.records)
                 + Appended(doc.id, SignerViewed, s.email, Some(SignerActor), None, Some(req), now, accepted))
  {
    var check := ViewCheck(doc.signers, doc.status, token, now);
    if check.Err? {
      return Err(check.error);
    }
    var k := check.value;
    var signer := doc.signers[k];
    if signer.status == SignerStatus.Pending {
      signer := signer.(status := SignerStatus.Viewed);
      doc.signers := doc.signers[k := signer];
    }
    CreateAuditLog(store, doc.id, SignerViewed, signer.email, Some(SignerActor), None, Some(req), now, accepted);
    return Ok(ViewResponse(doc.status, FieldsFor(doc.fields, signer.email), signer.email, signer.name, signer.status));
  }

  // ---------------------------------------------------------------------
  // sign: POST /sign/:token

  /** The sign checks in order: missing signature data (400), an unknown
      token (404), an already signed signer (409), an expired link (410). A
      signer who rejected is not refused. */
  function SignCheck(ss: seq<Signer>, token: string, data: string, now: Time): (r: Result<nat>)
    ensures data == "" ==> r == Err(BadRequest)
    ensures data != "" && FindByToken(ss, token).None? ==> r == Err(NotFound)
    ensures data != "" && FindByToken(ss, token).Some? && ss[FindByToken(ss, token).value].status == SignerStatus.Signed
      ==> r == Err(Conflict)
    ensures r.Ok? <==> data != "" && FindByToken(ss, token).Some?
                       && ss[FindByToken(ss, token).value].status != SignerStatus.Signed
                       && !LinkExpired(ss[FindByToken(ss, token).value], now)
    ensures r.Err? && r.error == Gone ==> LinkExpired(ss[FindByToken(ss, token).value], now)
    ensures r.Ok? ==> FindByToken(ss, token) == Some(r.value)
  {
    if data == "" then Err(BadRequest)
    else match FindByToken(ss, token)
      case None => Err(NotFound)
      case Some(k) =>
        if ss[k].status == SignerStatus.Signed then Err(Conflict)
        else if LinkExpired(ss[k], now) then Err(Gone)
        else Ok(k)
  }

  /** The signer after signing: `signed` at `now` with the data, the given
      name or the stored one, and the request's address and user agent. */
  function SignedSigner(s: Signer, data: string, name: string, now: Time, req: Request): Signer {
    s.(status := SignerStatus.Signed, signedAt := Some(now), signatureData := data, name := Or(name, s.name),
       ipAddress := Or(req.ip, req.forwardedFor), userAgent := req.userAgent)
  }

  /** What a successful sign does to the signer list: only the signer of the
      token changes, it keeps its email and token, and the document becomes
      `signed` exactly when everyone else had already signed. */
  lemma SignTransition(ss: seq<Signer>, token: string, data: string, name: string, now: Time, req: Request,
                       current: DocStatus)
    requires SignCheck(ss, token, data, now).Ok?
    ensures var k := SignCheck(ss, token, data, now).value;
      var ss' := ss[k := SignedSigner(ss[k], data, name, now, req)];
      && ss'[k].status == SignerStatus.Signed && ss'[k].signedAt == Some(now) && ss'[k].signatureData == data
      && ss'[k].email == ss[k].email && ss'[k].token == ss[k].token
      && (name != "" ==> ss'[k].name == name) && (name == "" ==> ss'[k].name == ss[k].name)
      && (forall j :: 0 <= j < |ss| && j != k ==> ss'[j] == ss[j])
      && ((DerivedStatus(ss', current) == DocStatus.Signed)
            <==> forall j :: 0 <= j < |ss| && j != k ==> ss[j].status == SignerStatus.Signed)
      && DerivedStatus(ss', current) != DocStatus.Pending
  {
    var k := SignCheck(ss, token, data, now).value;
    SigningCompletes(ss, k, SignedSigner(ss[k], data, name, now, req), current);
    var ss' := ss[k := SignedSigner(ss[k], data, name, now, req)];
    assert ss'[k].status == SignerStatus.Signed;
  }

  /** A second signature through the same link is refused with 409. */
  lemma SignTwiceConflicts(ss: seq<Signer>, token: string, data: string, name: string, now: Time, req: Request,
                           data': string, later: Time)
    requires SignCheck(ss, token, data, now).Ok? && data' != ""
    ensures var k := SignCheck(ss, token, data, now).value;
      SignCheck(ss[k := SignedSigner(ss[k], data, name, now, req)], token, data', later) == Err(Conflict)
  {
    var k := SignCheck(ss, token, data, now).value;
    FindByTokenAfterUpdate(ss, token, k, SignedSigner(ss[k], data, name, now, req));
  }

  /** A signer who rejected can still sign through a live link, and the
      document then leaves `rejected` unless another signer rejected too. */
  lemma RejectedCanSign(ss: seq<Signer>, token: string, data: string, name: string, now: Time, req: Request,
                        current: DocStatus)
    requires data != "" && FindByToken(ss, token).Some?
    requires ss[FindByToken(ss, token).value].status == SignerStatus.Rejected
    requires !LinkExpired(ss[FindByToken(ss, token).value], now)
    ensures SignCheck(ss, token, data, now) == Ok(FindByToken(ss, token).value)
    ensures var k := FindByToken(ss, token).value;
      var ss' := ss[k := SignedSigner(ss[k], data, name, now, req)];
      ((DerivedStatus(ss', current) == DocStatus.Rejected)
            <==> exists j :: 0 <= j < |ss| && j != k && ss[j].status == SignerStatus.Rejected)
  {
    var k := FindByToken(ss, token).value;
    var ss' := ss[k := SignedSigner(ss[k], data, name, now, req)];
    assert ss'[k].status == SignerStatus.Signed;
    if exists j :: 0 <= j < |ss| && j != k && ss[j].status == SignerStatus.Rejected {
      var j :| 0 <= j < |ss| && j != k && ss[j].status == SignerStatus.Rejected;
      assert ss'[j].status == SignerStatus.Rejected;
      assert !AllSigned(ss');
    }
  }

  /** Whether a sign request generates the signed PDF, and the file it
      records: only when the recomputed status is `signed`, `embedSignatures`
      succeeds and the file is written. */
  function SignArtifact(pages: seq<PageSize>, fields: seq<Field>, ss: seq<Signer>, status: DocStatus, r: Renderer,
                        now: Time, write: WriteOutcome): (a: Option<(string, string)>)
    ensures a.Some? <==> status == DocStatus.Signed && Plan(CheckMark, pages, fields, ss, r, now).Ok? && write.Written?
    ensures a.Some? ==> a.value == (write.filename, write.path)
  {
    if status == DocStatus.Signed && Plan(CheckMark, pages, fields, ss, r, now).Ok? && write.Written? then
      Some((write.filename, write.path))
    else None
  }

  /** As written, signing never produces the signed PDF: the signer who has
      just signed is listed on the audit page behind a check mark the
      standard font cannot encode. */
  lemma SignNeverGeneratesPdf(pages: seq<PageSize>, fields: seq<Field>, ss: seq<Signer>, status: DocStatus,
                              r: Renderer, now: Time, write: WriteOutcome, k: nat)
    requires WinAnsi(r) && k < |ss| && ss[k].status == SignerStatus.Signed
    ensures SignArtifact(pages, fields, ss, status, r, now, write) == None
  {
    CheckMarkBlocksPlan(pages, fields, ss, r, now, k);
  }

  /** The `signed_pdf_generated` record of a sign request, when the PDF was
      generated. */
  function PdfRecord(d: DocId, artifact: Option<(string, string)>, req: Request, now: Time, accepted: bool)
    : (r: seq<AuditRecord>)
    ensures |r| <= 1
    ensures |r| == 1 <==> artifact.Some? && accepted
    ensures |r| == 1 ==> r[0].action == SignedPdfGenerated && r[0].actorType == System
  {
    match artifact
    case Some(file) =>
      Appended(d, SignedPdfGenerated, "system", Some(System), Some(map["filename" := Str(file.0)]), Some(req), now, accepted)
    case None => []
  }

  /** The records a successful sign adds: `signed_pdf_generated` (when the
      PDF was generated) before `signer_signed`. */
  function SignRecords(d: DocId, s: Signer, artifact: Option<(string, string)>, req: Request, now: Time,
                       accepted: bool): (r: seq<AuditRecord>)
    ensures |r| <= 2
    ensures accepted && s.email != "" ==> |r| >= 1 && r[|r| - 1].action == SignerSigned
    ensures |r| == 2 ==> r[0].action == SignedPdfGenerated && artifact.Some?
  {
    PdfRecord(d, artifact, req, now, accepted)
    + Appended(d, SignerSigned, s.email, Some(SignerActor),
               Some(map["name" := Str(s.name), "ipAddress" := Str(s.ipAddress)]), Some(req), now, accepted)
  }

  /** The PDF step of a sign request, after the status is recomputed: a
      `signed` document gets its signed PDF and a record of it; a failure is
      swallowed. */
  method GenerateOnSigned(doc: Document, store: AuditStore, renderer: Renderer, now: Time, req: Request,
                          write: WriteOutcome, accepted: bool)
    returns (artifact: Option<(string, string)>)
    modifies doc`signedFile, store
    ensures artifact == SignArtifact(doc.original, doc.fields, doc.signers, doc.status, renderer, now, write)
    ensures doc.signedFile == (if artifact.Some? then Some(SignedFile(write.filename, write.path, now))
                               else old(doc.signedFile))
    ensures store.records == old(store.records) + PdfRecord(doc.id, artifact, req, now, accepted)
  {
    artifact := None;
    if doc.status == DocStatus.Signed {
      var saved := SaveSignedPdf(doc.original, doc.fields, doc.signers, renderer, now, write);
      if saved.Ok? {
        artifact := Some((saved.value.filename, saved.value.path));
        doc.signedFile := Some(SignedFile(saved.value.filename, saved.value.path, now));
        CreateAuditLog(store, doc.id, SignedPdfGenerated, "system", Some(System),
          Some(map["filename" := Str(saved.value.filename)]), Some(req), now, accepted);
      }
    }
  }

  /** `POST /sign/:token`. A failure to generate the PDF is caught: the
      signature and the new status are kept all the same. */
  method Sign(doc: Document, store: AuditStore, token: string, data: string, name: string,
              now: Time, req: Request, renderer: Renderer, write: WriteOutcome, accepted: bool)
    returns (r: Result<DocStatus>)
    modifies doc`signers, doc`status, doc`signedFile, store
    ensures var check := SignCheck(old(doc.signers), token, data, now);
      && (r.Ok? <==> check.Ok?)
      && (r.Err? ==> && r.error == check.error && doc.signers == old(doc.signers) && doc.status == old(doc.status)
                     && doc.signedFile == old(doc.signedFile) && store.records == old(store.records))
      && (r.Ok? ==>
            var k := check.value;
            var s := SignedSigner(old(doc.signers)[k], data, name, now, req);
            var ss := old(doc.signers)[k := s];
            var artifact := SignArtifact(doc.original, doc.fields, ss, doc.status, renderer, now, write);
            && doc.signers == ss
            && doc.status == DerivedStatus(ss, old(doc.status)) && r.value == doc.status
            && doc.signedFile == (if artifact.Some? then Some(SignedFile(write.filename, write.path, now))
                                  else old(doc.signedFile))
            && store.records == old(store.records) + SignRecords(doc.id, s, artifact, req, now, accepted))
  {
    var check := SignCheck(doc.signers, token, data, now);
    if check.Err? {
      return Err(check.error);
    }
    var k := check.value;
    var signer := SignedSigner(doc.signers[k], data, name, now, req);
    doc.signers := doc.signers[k := signer];
    doc.UpdateStatus();
    var artifact := GenerateOnSigned(doc, store, renderer, now, req, write, accepted);
    CreateAuditLog(store, doc.id, SignerSigned, signer.email, Some(SignerActor),
      Some(map["name" := Str(signer.name), "ipAddress" := Str(signer.ipAddress)]), Some(req), now, accepted);
    return Ok(doc.status);
  }

  // ---------------------------------------------------------------------
  // reject: POST /reject/:token

  /** The reject checks in order: an unknown token (404), an already signed
      signer (409). The link's expiry is not checked. */
  function RejectCheck(ss: seq<Signer>, token: string): (r: Result<nat>)
    ensures FindByToken(ss, token).None? ==> r == Err(NotFound)
    ensures r.Ok? <==> FindByToken(ss, token).Some? && ss[FindByToken(ss, token).value].status != SignerStatus.Signed
    ensures r.Err? && FindByToken(ss, token).Some? ==> r == Err(Conflict)
    ensures r.Ok? ==> FindByToken(ss, token) == Some(r.value)
  {
    match FindByToken(ss, token)
    case None => Err(NotFound)
    case Some(k) => if ss[k].status == SignerStatus.Signed then Err(Conflict) else Ok(k)
  }

  const NoReason: string := "No reason provided"

  /** The signer after rejecting: `rejected` at `now`, with the reason (or
      the default) and the request's own address only. */
  function RejectedSigner(s: Signer, reason: string, now: Time, req: Request): Signer {
    s.(status := SignerStatus.Rejected, rejectedAt := Some(now), rejectionReason := Or(reason, NoReason),
       ipAddress := req.ip)
  }

  /** An expired link can no longer sign, but it can still reject. */
  lemma ExpiredLinkCanStillReject(ss: seq<Signer>, token: string, data: string, now: Time)
    requires data != "" && FindByToken(ss, token).Some?
    requires ss[FindByToken(ss, token).value].status != SignerStatus.Signed
    requires LinkExpired(ss[FindByToken(ss, token).value], now)
    ensures SignCheck(ss, token, data, now) == Err(Gone)
    ensures RejectCheck(ss, token) == Ok(FindByToken(ss, token).value)
  {
  }

  /** A rejection makes the document `rejected`, always records a reason,
      and changes no other signer; a signed signer can no longer reject. */
  lemma RejectTransition(ss: seq<Signer>, token: string, reason: string, now: Time, req: Request, current: DocStatus)
    requires RejectCheck(ss, token).Ok?
    ensures var k := RejectCheck(ss, token).value;
      var ss' := ss[k := RejectedSigner(ss[k], reason, now, req)];
      && DerivedStatus(ss', current) == DocStatus.Rejected
      && ss'[k].rejectionReason != ""
      && (reason == "" ==> ss'[k].rejectionReason == NoReason)
      && (forall j :: 0 <= j < |ss| && j != k ==> ss'[j] == ss[j])
      && RejectCheck(ss', token) == Ok(k)
  {
    var k := RejectCheck(ss, token).value;
    var s := RejectedSigner(ss[k], reason, now, req);
    RejectionDecides(ss, k, s, current);
    FindByTokenAfterUpdate(ss, token, k, s);
  }

  /** `POST /reject/:token`. */
  method Reject(doc: Document, store: AuditStore, token: string, reason: string, now: Time, req: Request,
                accepted: bool)
    returns (r: Result<DocStatus>)
    modifies doc`signers, doc`status, store
    ensures var check := RejectCheck(old(doc.signers), token);
      && (r.Ok? <==> check.Ok?)
      && (r.Err? ==> && r.error == check.error && doc.signers == old(doc.signers) && doc.status == old(doc.status)
                     && store.records == old(store.records))
      && (r.Ok? ==>
            var s := RejectedSigner(old(doc.signers)[check.value], reason, now, req);
            var ss := old(doc.signers)[check.value := s];
            && doc.signers == ss && doc.status == DerivedStatus(ss, old(doc.status)) && r.value == doc.status
            && store.records == old(store.records)
                 + Appended(doc.id, SignerRejected, s.email, Some(SignerActor),
                            Some(map["reason" := Str(s.rejectionReason)]), Some(req), now, accepted))
  {
    var check := RejectCheck(doc.signers, token);
    if check.Err? {
      return Err(check.error);
    }
    var k := check.value;
    var signer := RejectedSigner(doc.signers[k], reason, now, req);
    doc.signers := doc.signers[k := signer];
    doc.UpdateStatus();
    CreateAuditLog(store, doc.id, SignerRejected, signer.email, Some(SignerActor),
      Some(map["reason" := Str(signer.rejectionReason)]), Some(req), now, accepted);
    return Ok(doc.status);
  }

  // ---------------------------------------------------------------------
  // manual generate: POST /generate/:id

  /** `POST /generate/:id`: owner only; whatever the document status, a
      successful generation replaces the stored signed file, and a failure
      reaches the error middleware (500). No status changes. As written,
      every document with a signed signer gets the 500. */
  method Generate(doc: Document, user: User, now: Time, renderer: Renderer, write: WriteOutcome)
    returns (r: Result<SignedFile>)
    modifies doc`signedFile
    ensures user.id != doc.owner ==> r == Err(NotFound)
    ensures r.Ok? <==> user.id == doc.owner && Plan(CheckMark, doc.original, doc.fields, doc.signers, renderer, now).Ok?
                       && write.Written?
    ensures user.id == doc.owner && WinAnsi(renderer) && AnyHas(doc.signers, SignerStatus.Signed) ==> r == Err(ServerError)
    ensures r.Err? ==> doc.signedFile == old(doc.signedFile) && (r.error == NotFound || r.error == ServerError)
    ensures r.Ok? ==> r.value == SignedFile(write.filename, write.path, now) && doc.signedFile == Some(r.value)
  {
    if user.id != doc.owner {
      return Err(NotFound);
    }
    if WinAnsi(renderer) && AnyHas(doc.signers, SignerStatus.Signed) {
      var k :| 0 <= k < |doc.signers| && doc.signers[k].status == SignerStatus.Signed;
      CheckMarkBlocksPlan(doc.original, doc.fields, doc.signers, renderer, now, k);
    }
    var saved := SaveSignedPdf(doc.original, doc.fields, doc.signers, renderer, now, write);
    if saved.Err? {
      return Err(saved.error);
    }
    doc.signedFile := Some(SignedFile(saved.value.filename, saved.value.path, now));
    return Ok(doc.signedFile.value);
  }
}
