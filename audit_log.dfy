/** The audit record schema (backend/models/AuditLog.js): the closed action
    vocabulary, the actor types, and the record with its defaults and its one
    required free-text field. */
module AuditLogModel {
  import opened Base

  datatype Action =
    | DocumentCreated
    | DocumentViewed
    | DocumentSent
    | SignerViewed
    | SignerSigned
    | SignerRejected
    | SignaturePlaced
    | SignedPdfGenerated
    | DocumentDownloaded
    | LinkShared

  datatype ActorType = Owner | SignerActor | System

  /** The stored spelling of each action. */
  function ActionName(a: Action): string {
    match a
    case DocumentCreated => "document_created"
    case DocumentViewed => "document_viewed"
    case DocumentSent => "document_sent"
    case SignerViewed => "signer_viewed"
    case SignerSigned => "signer_signed"
    case SignerRejected => "signer_rejected"
    case SignaturePlaced => "signature_placed"
    case SignedPdfGenerated => "signed_pdf_generated"
    case DocumentDownloaded => "document_downloaded"
    case LinkShared => "link_shared"
  }

  /** The schema's enum check: a string is accepted as an action exactly when
      it is the spelling of one of the ten actions. */
  function ParseAction(s: string): (r: Option<Action>)
    ensures r.Some? ==> ActionName(r.value) == s
    ensures forall a: Action :: ActionName(a) == s ==> r == Some(a)
  {
    match s
    case "document_created" => Some(DocumentCreated)
    case "document_viewed" => Some(DocumentViewed)
    case "document_sent" => Some(DocumentSent)
    case "signer_viewed" => Some(SignerViewed)
    case "signer_signed" => Some(SignerSigned)
    case "signer_rejected" => Some(SignerRejected)
    case "signature_placed" => Some(SignaturePlaced)
    case "signed_pdf_generated" => Some(SignedPdfGenerated)
    case "document_downloaded" => Some(DocumentDownloaded)
    case "link_shared" => Some(LinkShared)
    case _ => None
  }

  function ActorTypeName(t: ActorType): string {
    match t
    case Owner => "owner"
    case SignerActor => "signer"
    case System => "system"
  }

  /** The schema's enum check for `actorType`; an absent value defaults to
      `owner`. */
  function ParseActorType(s: Option<string>): (r: Option<ActorType>)
    ensures s.None? ==> r == Some(Owner)
    ensures s.Some? && r.Some? ==> ActorTypeName(r.value) == s.value
    ensures forall t: ActorType :: s == Some(ActorTypeName(t)) ==> r == Some(t)
  {
    match s
    case None => Some(Owner)
    case Some("owner") => Some(Owner)
    case Some("signer") => Some(SignerActor)
    case Some("system") => Some(System)
    case Some(_) => None
  }

  /** Leaves of the free-form metadata payload. */
  datatype MetaValue = Str(text: string) | StrList(items: seq<string>)

  type Metadata = map<string, MetaValue>

  datatype AuditRecord = AuditRecord(
    document: DocId,
    action: Action,
    actor: string,
    actorType: ActorType,
    metadata: Metadata,
    ipAddress: string,
    userAgent: string,
    timestamp: Time)

  /** `AuditLog.create`: validation of the required `actor` ("" fails it),
      then the defaults `actorType = owner`, `metadata = {}` and
      `timestamp = now`. */
  function CreateRecord(
    document: DocId, action: Action, actor: string, actorType: Option<ActorType>,
    metadata: Option<Metadata>, ipAddress: string, userAgent: string, now: Time): (r: Result<AuditRecord>)
    ensures r.Ok? <==> actor != ""
    ensures r.Err? ==> r.error == ServerError
    ensures r.Ok? ==> r.value.document == document && r.value.action == action && r.value.actor == actor
    ensures r.Ok? ==> r.value.actorType == (if actorType.Some? then actorType.value else Owner)
    ensures r.Ok? ==> r.value.metadata == (if metadata.Some? then metadata.value else map[])
    ensures r.Ok? ==> r.value.timestamp == now
  {
    if actor == "" then Err(ServerError)
    else Ok(AuditRecord(document, action, actor, actorType.GetOr(Owner), metadata.GetOr(map[]),
      ipAddress, userAgent, now))
  }
}
