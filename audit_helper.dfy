/** `createAuditLog` (backend/utils/auditHelper.js): build one audit record
    from the caller's arguments and the request, append it to the audit
    store, and swallow any failure, so that the calling handler always
    continues. */
module AuditHelper {
  import opened Base
  import opened AuditLogModel

  /** The audit collection, in insertion order. */
  class AuditStore {
    var records: seq<AuditRecord>

    constructor ()
      ensures records == []
    {
      records := [];
    }
  }

  /** `req?.ip || req?.headers?.['x-forwarded-for'] || 'unknown'`. */
  function ClientIp(req: Option<Request>): (ip: string)
    ensures ip != ""
    ensures req.None? ==> ip == "unknown"
    ensures req.Some? && req.value.ip != "" ==> ip == req.value.ip
    ensures req.Some? && req.value.ip == "" && req.value.forwardedFor != "" ==> ip == req.value.forwardedFor
    ensures ip == "unknown" || (req.Some? && ip in {req.value.ip, req.value.forwardedFor})
  {
    match req
    case None => "unknown"
    case Some(r) => Or(r.ip, Or(r.forwardedFor, "unknown"))
  }

  /** `req?.headers?.['user-agent'] || 'unknown'`. */
  function ClientAgent(req: Option<Request>): (agent: string)
    ensures agent != ""
    ensures req.Some? && req.value.userAgent != "" ==> agent == req.value.userAgent
    ensures agent == "unknown" || (req.Some? && agent == req.value.userAgent)
  {
    match req
    case None => "unknown"
    case Some(r) => Or(r.userAgent, "unknown")
  }

  /** The record `createAuditLog` asks the store to create, with the helper's
      own defaults (`actorType = owner`, `metadata = {}`) applied, or the
      validation failure the store reports. */
  function AuditEntry(
    documentId: DocId, action: Action, actor: string, actorType: Option<ActorType>,
    metadata: Option<Metadata>, req: Option<Request>, now: Time): (r: Result<AuditRecord>)
    ensures r.Ok? <==> actor != ""
    ensures r.Ok? ==> r.value.document == documentId && r.value.action == action && r.value.actor == actor
    ensures r.Ok? ==> r.value.actorType == actorType.GetOr(Owner)
    ensures r.Ok? ==> r.value.metadata == metadata.GetOr(map[])
    ensures r.Ok? ==> r.value.ipAddress == ClientIp(req) && r.value.userAgent == ClientAgent(req)
    ensures r.Ok? ==> r.value.timestamp == now
  {
    CreateRecord(documentId, action, actor, Some(actorType.GetOr(Owner)), Some(metadata.GetOr(map[])),
      ClientIp(req), ClientAgent(req), now)
  }

  /** `createAuditLog`. `accepted` says whether the store takes the write; a
      rejected write, like a record that fails validation, leaves the store
      unchanged and is never reported to the caller. */
  method CreateAuditLog(
    store: AuditStore, documentId: DocId, action: Action, actor: string,
    actorType: Option<ActorType>, metadata: Option<Metadata>, req: Option<Request>,
    now: Time, accepted: bool)
    modifies store
    ensures store.records == old(store.records) + Appended(documentId, action, actor, actorType, metadata, req, now, accepted)
  {
    var entry := AuditEntry(documentId, action, actor, actorType, metadata, req, now);
    if entry.Ok? && accepted {
      store.records := store.records + [entry.value];
    }
  }

  /** What one `createAuditLog` call adds to the store: the built record when
      it is valid and the store accepts it, nothing otherwise. */
  function Appended(
    documentId: DocId, action: Action, actor: string, actorType: Option<ActorType>,
    metadata: Option<Metadata>, req: Option<Request>, now: Time, accepted: bool): (r: seq<AuditRecord>)
    ensures |r| <= 1
    ensures |r| == 1 <==> accepted && actor != ""
    ensures |r| == 1 ==> r[0].document == documentId && r[0].action == action && r[0].timestamp == now
  {
    var entry := AuditEntry(documentId, action, actor, actorType, metadata, req, now);
    if entry.Ok? && accepted then [entry.value] else []
  }
}
