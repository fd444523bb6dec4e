# docsign-app signing workflow, modelled in Dafny

This project models the signing-workflow engine of the docsign-app backend: one Document record with its signers and signature fields, and the handlers that change it.

The model covers:

- the document status that `updateStatus` derives from the signers' statuses;
- the owner's signer-list handlers: add-signer, remove-signer, the signer merge of `PUT /api/documents/:id`, and send;
- the token-gated signer handlers: view, sign and reject, plus the owner's manual PDF generation;
- `embedSignatures`, as a plan of abstract draw commands: field boxes, signature images or their text fallback, and labels on the original pages, then an appended audit-summary page;
- the audit ledger: its closed action vocabulary, the best-effort `createAuditLog` helper, and the per-document audit query (newest first, at most 100).

Where the source changes state in place, the model does too. `Document` is a class whose fields the handlers assign. `updateStatus` is a method on it. The token source and the audit store are objects the handlers modify. The PDF plan is produced by methods with the source's loops, and each is proved equal to a specification function. Pure parts, such as the schema defaults, the merge and the audit query, are functions. Lemmas prove what the source promises about them.

Outside inputs become explicit parameters:

- the current time `now`;
- the base URL of the signing links;
- the request's address and user agent;
- the fresh tokens (`uuidv4()`), an injective generator in `Tokens.TokenSource`;
- whether the audit store accepts a write (`accepted`);
- whether writing the PDF file succeeds (`WriteOutcome`);
- what the runtime does for date formatting and image decoding, and which characters the embedded font encodes (`Renderer`).

Status codes map to `Failure`: `BadRequest` is 400, `NotFound` 404, `Conflict` 409, `Gone` 410 and `ServerError` 500.

Files:

| file | models |
|---|---|
| base.dfy | Option/Result, failures, time constants, JavaScript string and list helpers |
| tokens.dfy | the `uuidv4()` token source |
| document_model.dfy | backend/models/Document.js |
| document_routes.dfy | backend/routes/documents.js |
| signature_routes.dfy | backend/routes/signatures.js |
| pdf_plan.dfy | backend/utils/pdfUtils.js |
| audit_log.dfy | backend/models/AuditLog.js |
| audit_helper.dfy | backend/utils/auditHelper.js |
| audit_routes.dfy | backend/routes/audit.js |

The model follows the code literally, sharp edges included:

- reject does not check the link's expiry;
- remove-signer without an email fails only when the document has a signer, since the email is lowercased inside the `filter` callback;
- sign and reject accept a signer who already rejected;
- send sets the status to `pending` whatever it was before;
- in the PUT merge, the incoming entry's fields override the stored token and status;
- the PUT merge matches emails exactly, so an entry whose email differs from a stored one only in case becomes a new pending signer.

Four more details of the code are modelled as written:

- the view handler checks the signer's link expiry and the `expired` status, but not the document's `expiresAt`;
- the PDF plan takes the first signed signer with the field's email and only then checks that signer's signature data, so a later signed signer with data is never used;
- a field's box is placed with its stored height but drawn with the 60-point fallback, so a field of height 0 gets a box reaching 60 points above its position;
- the audit page puts a check mark (U+2713) in front of each signed signer, which the embedded Helvetica font cannot encode.

The view handler's token lookup is modelled against the full signer list. How the code as written behaves is recorded under Findings. The handlers keep the check mark, so the model proves that, as written, no document with a signed signer gets its signed PDF; the corrected marker is proved to remove that failure.

## Model

| member | source | states |
|---|---|---|
| Base.LowerIdempotent | backend/models/Document.js:17 | Lowercasing an already lowercased email changes nothing, so a stored email re-cast by the schema stays the same |
| Tokens.TokenSource.constructor | backend/models/Document.js:27 | The token oracle starts with no token issued; its generator never repeats a token and never yields an empty one |
| Tokens.TokenSource.Mint | backend/routes/documents.js:130 | One `uuidv4()` call yields a non-empty token that was never issued before, and adds exactly that token to the issued set |
| DocumentModel.CastField | backend/models/Document.js:4-14 | A field keeps its page, position and signer email; a missing width becomes 200, height 60, label "Signature", and `required` becomes true; a given width, height, label or `required` is kept as given |
| DocumentModel.FindByToken | backend/routes/signatures.js:21 | A found index holds a signer whose token equals the requested non-empty token; nothing is found exactly when the token is empty or no signer holds it |
| DocumentModel.TokenResolvesToHolder | backend/routes/signatures.js:21 | When no two signers share a token, each signer's own token resolves to that signer |
| DocumentModel.NewSignerDefaults | backend/models/Document.js:16-31 | A new signer is `pending`, has its email lowercased and no signing time, and its link is live exactly until 7 days after issue |
| DocumentModel.DerivedStatus | backend/models/Document.js:84-95 | An empty signer list keeps the stored status; otherwise the result is never `draft` or `expired` |
| DocumentModel.TallyBounds | backend/models/Document.js:87-89 | The count of signers in a status is at most the list length; it equals the length exactly when every signer has it (`every`) and is positive exactly when some signer has it (`some`) |
| DocumentModel.DerivedStatusByTally | backend/models/Document.js:87-94 | Each derived status holds exactly under its counting condition: `signed` when all signed; `rejected` when not all signed and at least one rejected; `partially_signed` when some but not all signed and none rejected; `pending` when none signed or rejected |
| DocumentModel.DerivedStatusIdempotent | backend/models/Document.js:84-95 | Recomputing the status a second time gives the same result as once |
| DocumentModel.TallyIsMultiplicity | backend/models/Document.js:87-89 | The count of signers in a status is that status's multiplicity in the multiset of signer statuses |
| DocumentModel.DerivedStatusOrderFree | backend/models/Document.js:84-95 | The derived status depends only on the multiset of signer statuses: not on signer order or any other signer field |
| DocumentModel.SigningCompletes | backend/models/Document.js:87-91 | After one signer signs, the document is `signed` exactly when every other signer had already signed |
| DocumentModel.RejectionDecides | backend/models/Document.js:88-92 | One rejected signer makes the document `rejected`, whatever the others did |
| DocumentModel.Document.constructor | backend/models/Document.js:66-76 | A new document is `draft`, with no signers, no fields and no signed file, and expires 30 days after creation |
| DocumentModel.Document.UpdateStatus | backend/models/Document.js:84-95 | Only the status field changes, and it becomes the derived status of the signers (kept as it was when there are no signers) |
| AuditLogModel.ParseAction | backend/models/AuditLog.js:9-24 | A string is accepted as an action exactly when it is the stored spelling of one of the ten actions, and it parses back to that action |
| AuditLogModel.ParseActorType | backend/models/AuditLog.js:29-33 | An absent actor type defaults to `owner`; exactly the spellings `owner`, `signer` and `system` are accepted, each as its own type |
| AuditLogModel.CreateRecord | backend/models/AuditLog.js:3-46 | Creation fails exactly when the required actor is missing; otherwise document, action and actor are stored unchanged, actor type defaults to `owner`, metadata to `{}`, timestamp to now |
| AuditHelper.ClientIp | backend/utils/auditHelper.js:11 | The recorded address is never empty: the request's ip, else its x-forwarded-for header, else "unknown", and "unknown" without a request |
| AuditHelper.ClientAgent | backend/utils/auditHelper.js:12 | The recorded user agent is never empty: the request's user-agent header, else "unknown" |
| AuditHelper.AuditEntry | backend/utils/auditHelper.js:3-13 | The built record carries the given document, action and actor with the helper's defaults (`owner`, `{}`) and the request's address and agent, and is valid exactly when the actor is present |
| AuditHelper.CreateAuditLog | backend/utils/auditHelper.js:3-17 | The store grows by exactly the records of `Appended` and by nothing else; a failed write returns nothing to the caller, which always continues |
| AuditHelper.Appended | backend/utils/auditHelper.js:4-16 | At most one record is added, and one is added exactly when the store accepts it and the actor is present; it carries the document, action and time |
| AuditRoutes.SortNewestFirstCorrect | backend/routes/audit.js:22 | The sort orders records by timestamp, newest first, and is a permutation of its input |
| AuditRoutes.SortedHoldsSame | backend/routes/audit.js:22 | A record is in the sorted list exactly when it is in the input, and the sorted list is newest first with the same length |
| AuditRoutes.NewestForDocumentFacts | backend/routes/audit.js:21-23 | The query result holds min(n, 100) records of the requested document, where n is that document's record count; all come from the log, newest first, and no record appears more often than in the log (a sub-multiset of the document's records) |
| AuditRoutes.AuditTrail | backend/routes/audit.js:9-29 | 404 exactly when the document does not exist or is not the requester's; otherwise min(n, 100) of the document's records, newest first, a sub-multiset of the document's records in the log |
| AuditRoutes.TrailKeepsNewest | backend/routes/audit.js:22-23 | The 100-record limit drops only the oldest records: a left-out record of the document is no newer than any returned one |
| AuditRoutes.NewestRecordLeads | backend/routes/audit.js:21-23 | Once a record at least as new as all others of its document is appended, the trail is non-empty and starts with a record of that timestamp |
| PdfPlan.DrawMark | backend/utils/pdfUtils.js:45-72 | The loop's image step gives the signature image, PNG when the data names image/png and JPEG otherwise, inset by 5 and shrunk by 10 x 25; it gives the name-or-email text at (x+10, y+h/2) when decoding fails, and nothing for data that is not an image data URL. It throws (500) exactly when that fallback text holds a character the font cannot encode |
| PdfPlan.DrawField | backend/utils/pdfUtils.js:18-84 | One iteration of the field loop issues exactly the field's planned draws, and throws (500) exactly when one of its texts holds a character the font cannot encode |
| PdfPlan.EmbedSignatures | backend/utils/pdfUtils.js:12-131 | The loop over fields followed by the audit page, with the check mark as written, issues exactly the plan: the layout when every signed signer has a signing time and every text is encodable, a 500 otherwise |
| PdfPlan.DrawAuditPage | backend/utils/pdfUtils.js:86-128 | The audit page fails exactly when a signed signer has no signing time or one of its texts, check mark included, cannot be encoded; otherwise it is the header followed by the signer lines under the `yPos` cursor starting at height - 120 |
| PdfPlan.DrawSignerLines | backend/utils/pdfUtils.js:114-126 | One signed signer's three lines are drawn exactly when the signer has a signing time and all three texts are encodable; the cursor moves down 0.8 + 0.8 + 1.2 line heights |
| PdfPlan.SaveSignedPdf | backend/utils/pdfUtils.js:136-147 | Saving succeeds exactly when `embedSignatures` (with the check mark) succeeds and the file is written; it then returns the file's name and path with the plan's draws, and otherwise a 500 |
| PdfPlan.CoordinateConversion | backend/utils/pdfUtils.js:29-32 | Converting the box's y to the bottom-left origin is undone by converting back; y 100 with height 60 on a 792-high page gives 632. Because the bottom edge uses the stored height and the box the 60-point fallback, the box's top edge meets the field's top exactly when the stored height is not 0, and lies 60 points above it otherwise |
| PdfPlan.FieldDrawnIff | backend/utils/pdfUtils.js:19-83 | A field is drawn exactly when the first signed signer with its email has signature data and the page (page or 1, minus 1) exists. A drawn field starts with its box at the converted origin, sized with the 200 x 60 fallbacks, and ends with the label of name-or-email and date at (x+5, y+4). It has three draws for an image data URL and two otherwise |
| PdfPlan.ImageInsideBox | backend/utils/pdfUtils.js:57-62 | The signature image lies inside its box on the same page whenever the box is at least 10 wide and 25 high |
| PdfPlan.FieldsPlanAppend | backend/utils/pdfUtils.js:18-84 | The draws of a field list are those of each field, concatenated in field order |
| PdfPlan.FieldsPlanSound | backend/utils/pdfUtils.js:18-62 | Field draws go only onto pages of the original document, and every placed image is the payload of a signed signer's signature |
| PdfPlan.SummaryOnAuditPage | backend/utils/pdfUtils.js:113-128 | Every signer line is drawn on the appended page |
| PdfPlan.SummaryLength | backend/utils/pdfUtils.js:113-128 | The audit page lists three lines per signed signer and nothing for the others |
| PdfPlan.SummaryLayout | backend/utils/pdfUtils.js:113-128 | Lines 3k to 3k+2 are the email, name/date and IP lines of the k-th signed signer in list order, starting k x 56 below the first signer's position |
| PdfPlan.PlanShape | backend/utils/pdfUtils.js:12-131 | The layout, which a successful plan returns, draws the fields on original pages and then exactly one appended page: three header draws plus three lines per signed signer |
| PdfPlan.MarkBlocksSummary | backend/utils/pdfUtils.js:113-117 | A marker the font cannot encode makes the signer lines fail as soon as one signer is signed |
| PdfPlan.CheckMarkBlocksPlan | backend/utils/pdfUtils.js:113-117 | With the Helvetica font embedded at line 16 (WinAnsi-encoded), the plan with the check mark fails with 500 whenever some signer is signed |
| PdfPlan.CheckMarkPlanIff | backend/utils/pdfUtils.js:12-131 | With printable date output, the plan as written succeeds exactly when no signer is signed |
| PdfPlan.PlanSucceeds | backend/utils/pdfUtils.js:12-131 | With printable signer data and dates, every signed signer dated, and a printable marker (or nobody signed), the plan succeeds |
| PdfPlan.PlainMarkPlans | backend/utils/pdfUtils.js:12-131 | With the printable marker "[x]" and printable signer data and dates, the plan succeeds exactly when every signed signer has a signing time |
| PdfPlan.FieldDrawable | backend/utils/pdfUtils.js:18-84 | A field's draws are all encodable when the signed signers' names, emails and dates are printable |
| PdfPlan.SummaryDrawable | backend/utils/pdfUtils.js:113-128 | The signer lines are all encodable when the signed signers' data and the marker are printable, or nobody signed |
| DocumentRoutes.AddSignerCheck | backend/routes/documents.js:112-121 | add-signer succeeds exactly when the email is present, the requester owns the document and no signer holds the lowercased email; otherwise 400, 404, 409 in that order |
| DocumentRoutes.AddSigner | backend/routes/documents.js:110-139 | On success exactly one signer is appended: lowercased email, `pending`, a fresh never-issued token and a 7-day expiry; exactly one token is drawn. Earlier signers are unchanged. On failure nothing changes and no token is drawn |
| DocumentRoutes.AddKeepsEmailsDistinct | backend/routes/documents.js:118-132 | Adding keeps the signer emails distinct and lowercased |
| DocumentRoutes.WithoutEmailFacts | backend/routes/documents.js:148 | Removal drops every signer with the email and keeps every other signer, with its multiplicity and in its original order |
| DocumentRoutes.AddThenRemove | backend/routes/documents.js:126-148 | Removing a signer right after adding it restores the signer list |
| DocumentRoutes.RemoveSigner | backend/routes/documents.js:142-154 | 404 for a non-owner; 500 when the email is absent and there is at least one signer, because `toLowerCase` throws inside the `filter` callback; an absent email on a signer-free document succeeds and leaves the list empty. Otherwise the list becomes the signers whose email differs from the lowercased one; the status is not recomputed |
| DocumentRoutes.MatchOf | backend/routes/documents.js:173 | A matched stored signer has exactly the entry's email |
| DocumentRoutes.MatchOfFirst | backend/routes/documents.js:173 | The match is the first stored signer with exactly the entry's email, and there is none exactly when no stored email equals it |
| DocumentRoutes.Merge | backend/routes/documents.js:172-188 | The merge has one signer per incoming entry |
| DocumentRoutes.MergeAt | backend/routes/documents.js:172-188 | Entry i becomes the overlay of its stored signer, or a new signer whose token comes after those of the new entries before it |
| DocumentRoutes.MergeSnoc | backend/routes/documents.js:172-188 | Merging one more entry appends its signer and draws one more token exactly when that entry is new |
| DocumentRoutes.MergeShape | backend/routes/documents.js:172-189 | The merge has one signer per entry, in entry order, each with the entry's email lowercased; stored signers that no entry names are dropped |
| DocumentRoutes.MergeKeepsStored | backend/routes/documents.js:173-176 | A matched entry keeps every stored field it does not carry (name, token, expiry, status, signing and rejection times, rejection reason, signature, address and user agent) and takes every field it does carry, so a supplied token or status overrides the stored one; its email is the entry's, lowercased |
| DocumentRoutes.MergeNewEntry | backend/routes/documents.js:177-186 | An unmatched entry becomes a `pending` signer with no signing or rejection time, no rejection reason, signature, address or user agent, its own email (lowercased) and name only, a 7-day expiry and one of the fresh tokens drawn for this merge |
| DocumentRoutes.MergeFreshDistinct | backend/routes/documents.js:184 | Two new entries never receive the same token |
| DocumentRoutes.MergeEntry | backend/routes/documents.js:173-187 | The `map` callback returns the merged entry and draws a token exactly when the entry has no stored signer |
| DocumentRoutes.MergeSigners | backend/routes/documents.js:170-190 | The `map` over the entries returns the merge and draws exactly one token per new entry |
| DocumentRoutes.UpdateDocument | backend/routes/documents.js:157-197 | 404 for a non-owner. Otherwise the merged signers, cast fields and given expiry are stored when the schema accepts them; if not, 500 with the document unchanged. One token is drawn per new entry of the merge and none otherwise |
| DocumentRoutes.RepairTokensFacts | backend/routes/documents.js:211-216 | Send's repair keeps every signer that has a token, gives each signer without one a token and a 7-day expiry and changes nothing else, and leaves every signer holding a token |
| DocumentRoutes.RepairTokensIdle | backend/routes/documents.js:211-216 | A list in which every signer holds a token is left unchanged |
| DocumentRoutes.RepairToken | backend/routes/documents.js:213-216 | The `forEach` body repairs one signer and draws a token exactly when that signer had none |
| DocumentRoutes.RepairAll | backend/routes/documents.js:211-221 | The in-place `forEach` leaves the signer list repaired and draws exactly one token per signer that had none |
| DocumentRoutes.LinkFor | backend/routes/documents.js:238 | A link starts with the base URL, continues with `/sign/` and ends with the token |
| DocumentRoutes.Links | backend/routes/documents.js:236-239 | There is one link per signer |
| DocumentRoutes.LinksResolve | backend/routes/documents.js:236-239 | Link i carries signer i's email, and the token at its end resolves to signer i when tokens are unique |
| DocumentRoutes.Send | backend/routes/documents.js:200-244 | 404 for a non-owner and 400 for no signers, with nothing changed and no token drawn. Otherwise the status becomes `pending`, missing tokens are repaired with one token drawn per signer that had none, one `document_sent` record with the emails is added, and one link per signer is returned |
| SignatureRoutes.FindByTokenAfterUpdate | backend/routes/signatures.js:80 | Updating the found signer without touching its token keeps the token resolving to it |
| SignatureRoutes.ViewLookupAsWrittenFails | backend/routes/signatures.js:13-22 | As written, the view's lookup on the projected document finds no signer for any token |
| SignatureRoutes.ViewLookupCounterexample | backend/routes/signatures.js:13-22 | One signer holding token "t1": the lookup in the full list finds it, while the lookup as written does not |
| SignatureRoutes.ViewCheck | backend/routes/signatures.js:17-31 | The view answers 404 for an unknown token, then 410 for an expired link, then 410 for an `expired` document, and otherwise resolves the token's signer |
| SignatureRoutes.ViewedSignerFacts | backend/routes/signatures.js:34-37 | Viewing moves only `pending` to `viewed`; it is idempotent, never yields `pending`, and never enters or leaves `signed` or `rejected` |
| SignatureRoutes.ViewKeepsDerivedStatus | backend/routes/signatures.js:34-37 | A view never changes the status `updateStatus` would derive |
| SignatureRoutes.FieldsFor | backend/routes/signatures.js:54 | Exactly the fields assigned to the signer's email are returned |
| SignatureRoutes.View | backend/routes/signatures.js:11-66 | A failed check changes nothing. Otherwise only the token's signer changes (pending becomes viewed), one `signer_viewed` record is added, and the response carries the document status, this signer's fields and the signer's updated status |
| SignatureRoutes.SignCheck | backend/routes/signatures.js:73-89 | sign answers 400 for missing data, then 404 for an unknown token, then 409 for an already signed signer, then 410 for an expired link; otherwise it resolves the token's signer |
| SignatureRoutes.SignTransition | backend/routes/signatures.js:91-100 | Signing marks only the token's signer `signed`, with the time, the data and the given or stored name, keeping its email and token. The document then becomes `signed` exactly when all others had signed, and is never left `pending` |
| SignatureRoutes.SignTwiceConflicts | backend/routes/signatures.js:83-85 | Signing a second time through the same link is refused with 409 |
| SignatureRoutes.RejectedCanSign | backend/routes/signatures.js:73-100 | A signer who rejected is not blocked: with data and a live link, sign goes through, and the document then stays `rejected` exactly when another signer rejected too |
| SignatureRoutes.SignArtifact | backend/routes/signatures.js:103-125 | The signed PDF is recorded exactly when the recomputed status is `signed`, generation with the check mark succeeds and the file is written |
| SignatureRoutes.SignNeverGeneratesPdf | backend/routes/signatures.js:103-125 | As written, with the WinAnsi-encoded font, a sign request never records a signed PDF, since the signer who has just signed is listed behind the check mark |
| SignatureRoutes.PdfRecord | backend/routes/signatures.js:114-121 | A `system` `signed_pdf_generated` record is added exactly when the PDF was generated and the store accepts it |
| SignatureRoutes.SignRecords | backend/routes/signatures.js:114-136 | A sign adds at most two records, `signed_pdf_generated` before `signer_signed`, which always comes last when the store accepts it |
| SignatureRoutes.GenerateOnSigned | backend/routes/signatures.js:102-125 | For a `signed` document the PDF step stores the signed file and adds its record; a failure is swallowed and changes nothing |
| SignatureRoutes.Sign | backend/routes/signatures.js:69-145 | A failed check changes nothing. Otherwise the signer is signed, the status recomputed, the signed file set only when generated, and `signed_pdf_generated` then `signer_signed` added; the recomputed status is returned |
| SignatureRoutes.RejectCheck | backend/routes/signatures.js:152-160 | reject answers 404 for an unknown token and 409 for an already signed signer, and never checks the link's expiry |
| SignatureRoutes.ExpiredLinkCanStillReject | backend/routes/signatures.js:148-167 | An expired link that sign refuses with 410 is still accepted by reject |
| SignatureRoutes.RejectTransition | backend/routes/signatures.js:162-167 | Rejecting makes the document `rejected`, records a reason ("No reason provided" by default), changes no other signer, and can be repeated through the same link |
| SignatureRoutes.Reject | backend/routes/signatures.js:148-183 | A failed check changes nothing. Otherwise the token's signer is rejected, the status recomputed and returned, and one `signer_rejected` record with the reason is added |
| SignatureRoutes.Generate | backend/routes/signatures.js:186-209 | 404 for a non-owner. Otherwise, whatever the status, a successful generation replaces the signed file and a failure is a 500; no signer and no status changes. As written, with the WinAnsi-encoded font, the owner gets the 500 whenever some signer is signed |

## Left out

- Mongo queries, Express routing and response bodies, and the `save()` round-trips are not modelled. A handler works on the one loaded document, and the outcome of a save becomes the schema check `SaveValid` or an input.
- Looking a token up across all documents (`findOne({'signers.token': …})`) is reduced to the signer list of the given document: a token no signer of it holds is a 404.
- The failure of `doc.save()` after sign, reject, view, add-signer, remove-signer or send is not modelled; those saves are assumed to succeed. In PUT, a save fails only through the required-email checks.
- Title and description edits in PUT, `isPublic`, `pageCount`, field ids, and the file metadata of `originalFile` are not modelled. The uploaded PDF is its list of page sizes.
- In the PUT merge, entries carry only the signer fields of the schema; other keys of the spread, and status strings outside the enum (a save failure in the source), are not modelled.
- `uuidv4()` is an injective generator, not randomness.
- Dates are integers of milliseconds, and date formatting, image decoding and the PDF bytes belong to the `Renderer` parameter.
- Coordinates are reals: floating-point rounding is not modelled.
- Fonts enter only through which characters the embedded font encodes (`Renderer.encodes`); glyph widths, colours and border widths are not modelled.
- `drawText`'s handling of tabs and line breaks in a text is not modelled: a text is drawable exactly when the font encodes each of its characters.
- Lower: lowercases the ASCII and Latin-1 capitals only; other scripts and the special mappings of `toLowerCase` (such as U+0130) are not modelled, because the model has no Unicode case tables.
- The file system work of `saveSignedPdf` (mkdir, write, the `Date.now()` file name) is one `WriteOutcome` input.
- The `console.log` of signing links in send and the `console.error` of swallowed failures are not modelled.
- One `accepted` flag per request decides every audit write of that request.
- The order of audit records with equal timestamps is the model's insertion-sort order; the database leaves it unspecified.
- The dashboard, stats, upload, get, delete and download routes, authentication, and the frontend are not part of this model.
- Concurrent requests are not modelled; operations run one at a time.

## Findings

| source | as written | input that shows it | evidently intended | confidence | as-written member | corrected member |
|---|---|---|---|---|---|---|
| backend/routes/signatures.js:13-21 | The view loads the document with `select('-signers.token')` and then looks the signer up by `s.token === token`; no loaded signer carries its stored token | A document whose one signer holds token "t1"; `GET /api/signatures/public/t1` finds the document but no signer, and answers 404 "Signer not found." | Resolve the token against the full signer list, and leave the token out of the response only | high, not executed | SignatureRoutes.ViewLookupCounterexample | SignatureRoutes.ViewCheck |
| backend/utils/pdfUtils.js:115 | Every signed signer's audit line starts with "✓", drawn with Helvetica, which `embedFont(StandardFonts.Helvetica)` (line 16) embeds with the WinAnsi encoding; that encoding has no U+2713, so `drawText` throws | One signer who has signed; `embedSignatures` throws, so sign stores no signed PDF and `POST /generate/:id` answers 500 | The audit page lists every signed signer, with a marker the font can encode | high, not executed | PdfPlan.CheckMarkBlocksPlan | PdfPlan.PlainMarkPlans |
