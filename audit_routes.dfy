/** The audit-trail query (backend/routes/audit.js): for a document owned by
    the requester, its audit records, newest first, at most 100. */
module AuditRoutes {
  import opened Base
  import opened AuditLogModel

  const TrailLimit: nat := 100

  function ForDocument(log: seq<AuditRecord>, d: DocId): seq<AuditRecord> {
    Filter(log, (e: AuditRecord) => e.document == d)
  }

  predicate NewestFirst(s: seq<AuditRecord>) {
    forall i, j :: 0 <= i < j < |s| ==> s[i].timestamp >= s[j].timestamp
  }

  /** Insert `e` into a newest-first sequence, before the first record that is
      no newer than it. */
  function Insert(e: AuditRecord, s: seq<AuditRecord>): seq<AuditRecord> {
    if |s| == 0 || e.timestamp >= s[0].timestamp then [e] + s
    else [s[0]] + Insert(e, s[1..])
  }

  lemma {:induction false} InsertCount(e: AuditRecord, s: seq<AuditRecord>)
    ensures multiset(Insert(e, s)) == multiset(s) + multiset{e}
    ensures |Insert(e, s)| == |s| + 1
  {
    if |s| > 0 && e.timestamp < s[0].timestamp {
      InsertCount(e, s[1..]);
      assert s == [s[0]] + s[1..];
    }
  }

  lemma {:induction false} InsertBound(e: AuditRecord, s: seq<AuditRecord>, bound: Time)
    requires e.timestamp <= bound
    requires forall j :: 0 <= j < |s| ==> s[j].timestamp <= bound
    ensures forall j :: 0 <= j < |Insert(e, s)| ==> Insert(e, s)[j].timestamp <= bound
  {
    if |s| > 0 && e.timestamp < s[0].timestamp {
      InsertBound(e, s[1..], bound);
    }
  }

  lemma {:induction false} InsertSorted(e: AuditRecord, s: seq<AuditRecord>)
    requires NewestFirst(s)
    ensures NewestFirst(Insert(e, s))
  {
    if |s| > 0 && e.timestamp < s[0].timestamp {
      InsertSorted(e, s[1..]);
      InsertBound(e, s[1..], s[0].timestamp);
    }
  }

  /** `.sort({ timestamp: -1 })`: an insertion sort, newest first. */
  function SortNewestFirst(s: seq<AuditRecord>): seq<AuditRecord> {
    if |s| == 0 then [] else Insert(s[0], SortNewestFirst(s[1..]))
  }

  /** The sort orders by timestamp, newest first, and neither loses nor
      invents a record. */
  lemma {:induction false} SortNewestFirstCorrect(s: seq<AuditRecord>)
    ensures NewestFirst(SortNewestFirst(s))
    ensures multiset(SortNewestFirst(s)) == multiset(s)
    ensures |SortNewestFirst(s)| == |s|
  {
    if |s| > 0 {
      SortNewestFirstCorrect(s[1..]);
      InsertSorted(s[0], SortNewestFirst(s[1..]));
      InsertCount(s[0], SortNewestFirst(s[1..]));
      assert s == [s[0]] + s[1..];
    }
  }

  function Take(s: seq<AuditRecord>, n: nat): seq<AuditRecord> {
    if |s| <= n then s else s[..n]
  }

  /** The records of `d`, newest first, at most 100 of them. */
  function NewestForDocument(log: seq<AuditRecord>, d: DocId): seq<AuditRecord> {
    Take(SortNewestFirst(ForDocument(log, d)), TrailLimit)
  }

  /** The trail holds at most 100 of the document's records, newest first,
      each at most as often as the log holds it. */
  lemma NewestForDocumentFacts(log: seq<AuditRecord>, d: DocId)
    ensures var r := NewestForDocument(log, d);
      && |r| == (if |ForDocument(log, d)| < TrailLimit then |ForDocument(log, d)| else TrailLimit)
      && NewestFirst(r)
      && multiset(r) <= multiset(ForDocument(log, d))
      && forall i :: 0 <= i < |r| ==> r[i] in log && r[i].document == d
  {
    var all := ForDocument(log, d);
    var sorted := SortNewestFirst(all);
    SortNewestFirstCorrect(all);
    var r := NewestForDocument(log, d);
    assert sorted == r + sorted[|r|..];
    assert multiset(sorted) == multiset(r) + multiset(sorted[|r|..]);
    forall i | 0 <= i < |r| ensures r[i] in log && r[i].document == d {
      assert r[i] == sorted[i];
      assert sorted[i] in multiset(all);
    }
  }

  /** `GET /api/audit/:documentId`: 404 unless the document exists and
      belongs to the requester; otherwise its records, newest first, at most
      100 of them. `owners` maps each stored document to its owner. */
  function AuditTrail(log: seq<AuditRecord>, owners: map<DocId, UserId>, requester: UserId, d: DocId)
    : (r: Result<seq<AuditRecord>>)
    ensures r.Err? <==> !(d in owners && owners[d] == requester)
    ensures r.Err? ==> r.error == NotFound
    ensures r.Ok? ==> |r.value| == if |ForDocument(log, d)| < TrailLimit then |ForDocument(log, d)| else TrailLimit
    ensures r.Ok? ==> NewestFirst(r.value)
    ensures r.Ok? ==> multiset(r.value) <= multiset(ForDocument(log, d))
    ensures r.Ok? ==> forall i :: 0 <= i < |r.value| ==> r.value[i] in log && r.value[i].document == d
  {
    if d !in owners || owners[d] != requester then Err(NotFound)
    else
      NewestForDocumentFacts(log, d);
      Ok(NewestForDocument(log, d))
  }

  /** The limit drops only the oldest records: every record of the document
      that is left out is no newer than every record that is returned. */
  lemma TrailKeepsNewest(log: seq<AuditRecord>, owners: map<DocId, UserId>, requester: UserId, d: DocId,
                         e: AuditRecord)
    requires d in owners && owners[d] == requester
    requires e in log && e.document == d
    ensures var trail := AuditTrail(log, owners, requester, d).value;
      e !in trail ==> forall i :: 0 <= i < |trail| ==> trail[i].timestamp >= e.timestamp
  {
    var all := ForDocument(log, d);
    var sorted := SortNewestFirst(all);
    SortNewestFirstCorrect(all);
    assert e in all;
    assert e in multiset(sorted) by { assert e in multiset(all); }
    var k :| 0 <= k < |sorted| && sorted[k] == e;
    var trail := AuditTrail(log, owners, requester, d).value;
    assert trail == Take(sorted, TrailLimit);
    if e !in trail {
      assert k >= TrailLimit && |sorted| > TrailLimit;
    }
  }

  /** A record that is at least as new as every other record of its
      document leads the trail once it has been appended. */
  lemma NewestRecordLeads(log: seq<AuditRecord>, owners: map<DocId, UserId>, requester: UserId,
                          e: AuditRecord)
    requires e.document in owners && owners[e.document] == requester
    requires forall i :: 0 <= i < |log| && log[i].document == e.document ==> log[i].timestamp <= e.timestamp
    ensures var trail := AuditTrail(log + [e], owners, requester, e.document).value;
      |trail| > 0 && trail[0].timestamp == e.timestamp
  {
    var d := e.document;
    assert AuditTrail(log + [e], owners, requester, d) == Ok(NewestForDocument(log + [e], d));
    FilterAppend(log, [e], (x: AuditRecord) => x.document == d);
    var before := ForDocument(log, d);
    assert ForDocument(log + [e], d) == before + [e];
    forall x | x in before ensures x.timestamp <= e.timestamp {
      var j :| 0 <= j < |before| && before[j] == x;
    }
    NewestSortsFirst(before + [e], e);
  }

  /** Sorting puts a record that is at least as new as all others first. */
  lemma NewestSortsFirst(all: seq<AuditRecord>, e: AuditRecord)
    requires e in all
    requires forall x :: x in all ==> x.timestamp <= e.timestamp
    ensures |SortNewestFirst(all)| > 0 && SortNewestFirst(all)[0].timestamp == e.timestamp
  {
    var sorted := SortNewestFirst(all);
    SortedHoldsSame(all, e);
    SortedHoldsSame(all, sorted[0]);
  }

  /** The sort keeps exactly the records it is given. */
  lemma SortedHoldsSame(s: seq<AuditRecord>, x: AuditRecord)
    ensures x in SortNewestFirst(s) <==> x in s
    ensures NewestFirst(SortNewestFirst(s)) && |SortNewestFirst(s)| == |s|
  {
    SortNewestFirstCorrect(s);
    assert x in multiset(s) <==> x in s;
    assert x in multiset(SortNewestFirst(s)) <==> x in SortNewestFirst(s);
  }
}
