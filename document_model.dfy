/** The Document record (backend/models/Document.js): signer and field
    sub-records with their schema defaults, the derived document status, and
    the Document object whose `status` field `updateStatus` rewrites. */
module DocumentModel {
  import opened Base

  datatype SignerStatus = Pending | Viewed | Signed | Rejected

  datatype DocStatus = Draft | Pending | PartiallySigned | Signed | Rejected | Expired

  /** One signer sub-record. Absent strings (name, token, signature data,
      ip address, user agent, rejection reason) are "". */
  datatype Signer = Signer(
    email: string,
    name: string,
    status: SignerStatus,
    signedAt: Option<Time>,
    rejectedAt: Option<Time>,
    rejectionReason: string,
    token: string,
    tokenExpiry: Time,
    signatureData: string,
    ipAddress: string,
    userAgent: string)

  /** A page of the uploaded PDF, in PDF points. */
  datatype PageSize = PageSize(width: real, height: real)

  /** A signature field: a placement hint on a 1-based page, in a
      top-left-origin coordinate space. */
  datatype Field = Field(
    page: int, x: real, y: real, width: real, height: real,
    signerEmail: string, labelText: string, required: bool)

  /** A signature field as a client submits it, before the schema defaults
      are applied. */
  datatype FieldInput = FieldInput(
    page: int, x: real, y: real, width: Option<real>, height: Option<real>,
    signerEmail: string, labelText: Option<string>, required: Option<bool>)

  /** The stored reference to the generated signed PDF. */
  datatype SignedFile = SignedFile(filename: string, path: string, generatedAt: Time)

  const DefaultFieldWidth: real := 200.0
  const DefaultFieldHeight: real := 60.0
  const DefaultFieldLabel: string := "Signature"

  /** The field schema's defaults: 200 x 60, label "Signature", required. */
  function CastField(f: FieldInput): (r: Field)
    ensures r.page == f.page && r.x == f.x && r.y == f.y && r.signerEmail == f.signerEmail
    ensures f.width.None? ==> r.width == DefaultFieldWidth
    ensures f.height.None? ==> r.height == DefaultFieldHeight
    ensures f.labelText.None? ==> r.labelText == DefaultFieldLabel
    ensures f.required.None? ==> r.required
    ensures f.width.Some? ==> r.width == f.width.value
    ensures f.height.Some? ==> r.height == f.height.value
    ensures f.labelText.Some? ==> r.labelText == f.labelText.value
    ensures f.required.Some? ==> r.required == f.required.value
  {
    Field(f.page, f.x, f.y,
      f.width.GetOr(DefaultFieldWidth), f.height.GetOr(DefaultFieldHeight),
      f.signerEmail, f.labelText.GetOr(DefaultFieldLabel), f.required.GetOr(true))
  }

  /** A signer created with the schema's defaults: the email stored
      lowercased, status `pending`, a token issued now and valid for 7 days. */
  function NewSigner(email: string, name: string, token: string, now: Time): (s: Signer)
  {
    Signer(Lower(email), name, SignerStatus.Pending, None, None, "", token,
      now + TokenLifetime, "", "", "")
  }

  /** `new Date() > new Date(signer.tokenExpiry)`. */
  predicate LinkExpired(s: Signer, now: Time) {
    now > s.tokenExpiry
  }

  /** The signer a token resolves to (`signers.find(s => s.token === token)`);
      a signer without a token ("") is never matched. */
  function FindByToken(ss: seq<Signer>, token: string): (r: Option<nat>)
    ensures r.Some? ==> r.value < |ss| && ss[r.value].token == token && token != ""
    ensures r.None? <==> token == "" || forall i :: 0 <= i < |ss| ==> ss[i].token != token
  {
    FindFirst(ss, (s: Signer) => s.token != "" && s.token == token)
  }

  /** When tokens are unique, every signer's own token resolves to that
      signer. */
  lemma TokenResolvesToHolder(ss: seq<Signer>, i: nat)
    requires i < |ss| && ss[i].token != ""
    requires forall j, k :: 0 <= j < k < |ss| ==> ss[j].token != ss[k].token
    ensures FindByToken(ss, ss[i].token) == Some(i)
  {
    assert FindByToken(ss, ss[i].token).Some?;
  }

  /** A new signer is pending, has not signed, and its link works for
      exactly seven days after it was issued. */
  lemma NewSignerDefaults(email: string, name: string, token: string, now: Time, at: Time)
    ensures NewSigner(email, name, token, now).status == SignerStatus.Pending
    ensures NewSigner(email, name, token, now).email == Lower(email)
    ensures NewSigner(email, name, token, now).signedAt.None?
    ensures !LinkExpired(NewSigner(email, name, token, now), at) <==> at <= now + TokenLifetime
  {
  }

  // ---------------------------------------------------------------------
  // Derived document status (`updateStatus`)

  predicate AllSigned(ss: seq<Signer>) {
    forall i :: 0 <= i < |ss| ==> ss[i].status == SignerStatus.Signed
  }

  predicate AnyHas(ss: seq<Signer>, st: SignerStatus) {
    exists i :: 0 <= i < |ss| && ss[i].status == st
  }

  /** The status `updateStatus` leaves on a document whose stored status is
      `current`: unchanged for an empty signer list, otherwise decided by the
      signers' statuses with rejection ranked above partial signing. */
  function DerivedStatus(ss: seq<Signer>, current: DocStatus): (r: DocStatus)
    ensures |ss| == 0 ==> r == current
    ensures |ss| > 0 ==> r != DocStatus.Draft && r != DocStatus.Expired
  {
    if |ss| == 0 then current
    else if AllSigned(ss) then DocStatus.Signed
    else if AnyHas(ss, SignerStatus.Rejected) then DocStatus.Rejected
    else if AnyHas(ss, SignerStatus.Signed) then DocStatus.PartiallySigned
    else DocStatus.Pending
  }

  /** The number of signers in status `st`: an independent, counting
      statement of the precedence rule. */
  function Tally(ss: seq<Signer>, st: SignerStatus): nat {
    if |ss| == 0 then 0
    else (if ss[0].status == st then 1 else 0) + Tally(ss[1..], st)
  }

  lemma {:induction false} TallyBounds(ss: seq<Signer>, st: SignerStatus)
    ensures Tally(ss, st) <= |ss|
    ensures Tally(ss, st) == |ss| <==> forall i :: 0 <= i < |ss| ==> ss[i].status == st
    ensures Tally(ss, st) > 0 <==> AnyHas(ss, st)
  {
    if |ss| > 0 {
      TallyBounds(ss[1..], st);
      assert forall i :: 1 <= i < |ss| ==> ss[i] == ss[1..][i - 1];
      if AnyHas(ss[1..], st) {
        var k :| 0 <= k < |ss| - 1 && ss[1..][k].status == st;
        assert ss[k + 1].status == st;
      }
    }
  }

  /** The precedence rule stated by counting signers. */
  lemma DerivedStatusByTally(ss: seq<Signer>, current: DocStatus)
    requires |ss| > 0
    ensures var r := DerivedStatus(ss, current);
      && (r == DocStatus.Signed <==> Tally(ss, SignerStatus.Signed) == |ss|)
      && (r == DocStatus.Rejected <==>
            Tally(ss, SignerStatus.Signed) < |ss| && Tally(ss, SignerStatus.Rejected) > 0)
      && (r == DocStatus.PartiallySigned <==>
            0 < Tally(ss, SignerStatus.Signed) < |ss| && Tally(ss, SignerStatus.Rejected) == 0)
      && (r == DocStatus.Pending <==>
            Tally(ss, SignerStatus.Signed) == 0 && Tally(ss, SignerStatus.Rejected) == 0)
  {
    TallyBounds(ss, SignerStatus.Signed);
    TallyBounds(ss, SignerStatus.Rejected);
  }

  /** Recomputing is idempotent: the result depends on the signers only. */
  lemma DerivedStatusIdempotent(ss: seq<Signer>, current: DocStatus)
    ensures DerivedStatus(ss, DerivedStatus(ss, current)) == DerivedStatus(ss, current)
  {
  }

  function Statuses(ss: seq<Signer>): (r: seq<SignerStatus>)
    ensures |r| == |ss| && forall i :: 0 <= i < |ss| ==> r[i] == ss[i].status
  {
    seq(|ss|, i requires 0 <= i < |ss| => ss[i].status)
  }

  lemma {:induction false} TallyIsMultiplicity(ss: seq<Signer>, st: SignerStatus)
    ensures Tally(ss, st) == multiset(Statuses(ss))[st]
  {
    if |ss| > 0 {
      TallyIsMultiplicity(ss[1..], st);
      assert Statuses(ss) == [ss[0].status] + Statuses(ss[1..]);
    }
  }

  /** The document status reads nothing but the multiset of signer statuses:
      neither the order of the signers nor any other signer field matters. */
  lemma DerivedStatusOrderFree(ss: seq<Signer>, ss': seq<Signer>, current: DocStatus)
    requires multiset(Statuses(ss)) == multiset(Statuses(ss'))
    ensures DerivedStatus(ss, current) == DerivedStatus(ss', current)
  {
    assert |ss| == |Statuses(ss)| == |multiset(Statuses(ss))| == |ss'|;
    if |ss| > 0 {
      TallyIsMultiplicity(ss, SignerStatus.Signed);
      TallyIsMultiplicity(ss', SignerStatus.Signed);
      TallyIsMultiplicity(ss, SignerStatus.Rejected);
      TallyIsMultiplicity(ss', SignerStatus.Rejected);
      DerivedStatusByTally(ss, current);
      DerivedStatusByTally(ss', current);
    }
  }

  /** After one signer signs, the document is `signed` exactly when every
      other signer had already signed. */
  lemma SigningCompletes(ss: seq<Signer>, i: nat, s: Signer, current: DocStatus)
    requires i < |ss| && s.status == SignerStatus.Signed
    ensures DerivedStatus(ss[i := s], current) == DocStatus.Signed
        <==> forall j :: 0 <= j < |ss| && j != i ==> ss[j].status == SignerStatus.Signed
  {
    assert forall j :: 0 <= j < |ss| && j != i ==> ss[i := s][j] == ss[j];
  }

  /** One rejection makes the document `rejected`, whatever the others did
      before. */
  lemma RejectionDecides(ss: seq<Signer>, i: nat, s: Signer, current: DocStatus)
    requires i < |ss| && s.status == SignerStatus.Rejected
    ensures DerivedStatus(ss[i := s], current) == DocStatus.Rejected
  {
    assert ss[i := s][i].status == SignerStatus.Rejected;
  }

  // ---------------------------------------------------------------------
  // The document object

  class Document {
    const id: DocId
    const owner: UserId
    /** The pages of the uploaded PDF (originalFile). */
    const original: seq<PageSize>
    var status: DocStatus
    var signers: seq<Signer>
    var fields: seq<Field>
    var expiresAt: Time
    var signedFile: Option<SignedFile>

    /** A new document with the schema defaults: `draft`, no signers, no
        fields, no signed file, expiring 30 days after creation. */
    constructor (id: DocId, owner: UserId, original: seq<PageSize>, now: Time)
      ensures this.id == id && this.owner == owner && this.original == original
      ensures status == DocStatus.Draft && signers == [] && fields == []
      ensures expiresAt == now + DocumentLifetime && signedFile == None
    {
      this.id := id;
      this.owner := owner;
      this.original := original;
      status := DocStatus.Draft;
      signers := [];
      fields := [];
      expiresAt := now + DocumentLifetime;
      signedFile := None;
    }

    /** `updateStatus`: recompute the cached status from the signers; a
        document without signers keeps its stored status. */
    method UpdateStatus()
      modifies this`status
      ensures status == DerivedStatus(signers, old(status))
    {
      if |signers| == 0 {
        return;
      }
      var allSigned := forall i :: 0 <= i < |signers| ==> signers[i].status == SignerStatus.Signed;
      var anySigned := exists i :: 0 <= i < |signers| && signers[i].status == SignerStatus.Signed;
      var anyRejected := exists i :: 0 <= i < |signers| && signers[i].status == SignerStatus.Rejected;
      if allSigned {
        status := DocStatus.Signed;
      } else if anyRejected {
        status := DocStatus.Rejected;
      } else if anySigned {
        status := DocStatus.PartiallySigned;
      } else {
        status := DocStatus.Pending;
      }
    }
  }
}
