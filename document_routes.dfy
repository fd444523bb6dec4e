/** The owner-side signer-list handlers (backend/routes/documents.js):
    add-signer, remove-signer, the signer merge of `PUT /api/documents/:id`,
    and send. Each handler works on the loaded Document and answers 404 when
    the requester does not own it. */
module DocumentRoutes {
  import opened Base
  import opened Tokens
  import opened DocumentModel
  import opened AuditLogModel
  import opened AuditHelper

  predicate HasEmail(ss: seq<Signer>, e: string) {
    exists i :: 0 <= i < |ss| && ss[i].email == e
  }

  predicate DistinctEmails(ss: seq<Signer>) {
    forall i, j :: 0 <= i < j < |ss| ==> ss[i].email != ss[j].email
  }

  /** The schema's `lowercase: true` on signer emails. */
  predicate LowercaseEmails(ss: seq<Signer>) {
    forall i :: 0 <= i < |ss| ==> Lower(ss[i].email) == ss[i].email
  }

  // ---------------------------------------------------------------------
  // add-signer

  /** The checks of add-signer, in the handler's order: missing email (400),
      then ownership (404), then a signer already holding the lowercased
      email (409). */
  function AddSignerCheck(ss: seq<Signer>, owner: UserId, user: User, email: string): (r: Result<()>)
    ensures r.Ok? <==> email != "" && user.id == owner && !HasEmail(ss, Lower(email))
    ensures email == "" ==> r == Err(BadRequest)
    ensures email != "" && user.id != owner ==> r == Err(NotFound)
    ensures email != "" && user.id == owner && HasEmail(ss, Lower(email)) ==> r == Err(Conflict)
  {
    if email == "" then Err(BadRequest)
    else if user.id != owner then Err(NotFound)
    else if exists i :: 0 <= i < |ss| && ss[i].email == Lower(email) then Err(Conflict)
    else Ok(())
  }

  /** `POST /:id/add-signer`: on success one new pending signer with a fresh
      token is pushed at the end; on any failure nothing changes and no token
      is drawn. */
  method AddSigner(doc: Document, tokens: TokenSource, user: User, email: string, name: string, now: Time)
    returns (r: Result<()>)
    requires tokens.Valid()
    modifies doc`signers, tokens
    ensures tokens.Valid()
    ensures r == AddSignerCheck(old(doc.signers), doc.owner, user, email)
    ensures r.Err? ==> doc.signers == old(doc.signers) && tokens.next == old(tokens.next)
    ensures r.Ok? ==> doc.signers == old(doc.signers) + [NewSigner(email, name, tokens.gen(old(tokens.next)), now)]
    ensures r.Ok? ==> tokens.gen(old(tokens.next)) !in old(tokens.Issued())
    ensures r.Ok? ==> tokens.next == old(tokens.next) + 1
                      && tokens.Issued() == old(tokens.Issued()) + {tokens.gen(old(tokens.next))}
  {
    r := AddSignerCheck(doc.signers, doc.owner, user, email);
    if r.Err? {
      return;
    }
    var token := tokens.Mint();
    doc.signers := doc.signers + [NewSigner(email, name, token, now)];
  }

  /** Adding keeps the signer list free of duplicate emails and keeps every
      stored email lowercased. */
  lemma AddKeepsEmailsDistinct(ss: seq<Signer>, email: string, name: string, token: string, now: Time)
    requires DistinctEmails(ss) && LowercaseEmails(ss)
    requires !HasEmail(ss, Lower(email))
    ensures DistinctEmails(ss + [NewSigner(email, name, token, now)])
    ensures LowercaseEmails(ss + [NewSigner(email, name, token, now)])
  {
    LowerIdempotent(email);
    var ss' := ss + [NewSigner(email, name, token, now)];
    assert ss'[|ss|].email == Lower(email);
  }

  // ---------------------------------------------------------------------
  // remove-signer

  /** `signers.filter(s => s.email !== e)`. */
  function WithoutEmail(ss: seq<Signer>, e: string): seq<Signer> {
    Filter(ss, (s: Signer) => s.email != e)
  }

  /** Removal drops every signer with the email and keeps every other signer,
      with its multiplicity and in its original order. */
  lemma WithoutEmailFacts(ss: seq<Signer>, e: string)
    ensures !HasEmail(WithoutEmail(ss, e), e)
    ensures forall s: Signer :: multiset(WithoutEmail(ss, e))[s] == if s.email != e then multiset(ss)[s] else 0
    ensures forall a, b :: ss == a + b ==> WithoutEmail(ss, e) == WithoutEmail(a, e) + WithoutEmail(b, e)
  {
    forall s: Signer ensures multiset(WithoutEmail(ss, e))[s] == if s.email != e then multiset(ss)[s] else 0 {
      FilterMultiset(ss, (x: Signer) => x.email != e, s);
    }
    forall a, b | ss == a + b ensures WithoutEmail(ss, e) == WithoutEmail(a, e) + WithoutEmail(b, e) {
      FilterAppend(a, b, (x: Signer) => x.email != e);
    }
  }

  /** Removing a signer right after adding it restores the signer list. */
  lemma AddThenRemove(ss: seq<Signer>, email: string, name: string, token: string, now: Time)
    requires !HasEmail(ss, Lower(email))
    ensures WithoutEmail(ss + [NewSigner(email, name, token, now)], Lower(email)) == ss
  {
    var p := (x: Signer) => x.email != Lower(email);
    FilterAppend(ss, [NewSigner(email, name, token, now)], p);
    FilterAll(ss, p);
  }

  /** `POST /:id/remove-signer`. The email is lowercased inside the `filter`
      callback, so an absent email throws (500 from the error middleware) only
      when there is at least one signer to call it on; with no signers the
      list stays empty and the request succeeds. The document status is not
      recomputed. */
  method RemoveSigner(doc: Document, user: User, email: Option<string>) returns (r: Result<()>)
    modifies doc`signers
    ensures user.id != doc.owner ==> r == Err(NotFound)
    ensures user.id == doc.owner && email.None? && |old(doc.signers)| > 0 ==> r == Err(ServerError)
    ensures r.Ok? <==> user.id == doc.owner && (email.Some? || |old(doc.signers)| == 0)
    ensures r.Err? ==> doc.signers == old(doc.signers)
    ensures r.Ok? && email.Some? ==> doc.signers == WithoutEmail(old(doc.signers), Lower(email.value))
    ensures r.Ok? && email.None? ==> doc.signers == old(doc.signers) == []
  {
    if user.id != doc.owner {
      return Err(NotFound);
    }
    if email.None? {
      if |doc.signers| == 0 {
        return Ok(());
      }
      return Err(ServerError);
    }
    doc.signers := WithoutEmail(doc.signers, Lower(email.value));
    return Ok(());
  }

  // ---------------------------------------------------------------------
  // PUT /:id: the signer merge

  /** One entry of the incoming `signers` array: its email and whichever
      signer fields it carries. */
  datatype SignerPatch = SignerPatch(
    email: string,
    name: Option<string>,
    status: Option<SignerStatus>,
    signedAt: Option<Time>,
    rejectedAt: Option<Time>,
    rejectionReason: Option<string>,
    token: Option<string>,
    tokenExpiry: Option<Time>,
    signatureData: Option<string>,
    ipAddress: Option<string>,
    userAgent: Option<string>)

  /** The parts of the PUT body the model covers; `None` is an absent (or
      falsy) body field. */
  datatype DocumentPatch = DocumentPatch(
    signers: Option<seq<SignerPatch>>,
    fields: Option<seq<FieldInput>>,
    expiresAt: Option<Time>)

  /** `{ ...existing.toObject(), ...newSigner }`: every field the entry
      carries replaces the stored one; the email is cast to lower case. */
  function Overlay(s: Signer, p: SignerPatch): Signer {
    Signer(Lower(p.email), p.name.GetOr(s.name), p.status.GetOr(s.status),
      if p.signedAt.Some? then p.signedAt else s.signedAt,
      if p.rejectedAt.Some? then p.rejectedAt else s.rejectedAt,
      p.rejectionReason.GetOr(s.rejectionReason), p.token.GetOr(s.token),
      p.tokenExpiry.GetOr(s.tokenExpiry), p.signatureData.GetOr(s.signatureData),
      p.ipAddress.GetOr(s.ipAddress), p.userAgent.GetOr(s.userAgent))
  }

  /** The stored signer an entry is merged with: exact email equality, so an
      entry whose email differs from the stored one only in case is new. */
  function MatchOf(ss: seq<Signer>, p: SignerPatch): (r: Option<nat>)
    ensures r.Some? ==> r.value < |ss| && ss[r.value].email == p.email
  {
    if |ss| == 0 then None
    else if ss[0].email == p.email then Some(0)
    else match MatchOf(ss[1..], p)
      case None => None
      case Some(k) => Some(k + 1)
  }

  /** `existing.find(s => s.email === newSigner.email)`: the first stored
      signer with exactly the entry's email, and none when there is none. */
  lemma {:induction false} MatchOfFirst(ss: seq<Signer>, p: SignerPatch)
    ensures MatchOf(ss, p).Some? ==> forall j :: 0 <= j < MatchOf(ss, p).value ==> ss[j].email != p.email
    ensures MatchOf(ss, p).None? <==> forall j :: 0 <= j < |ss| ==> ss[j].email != p.email
  {
    if |ss| > 0 && ss[0].email != p.email {
      MatchOfFirst(ss[1..], p);
      assert forall j :: 1 <= j < |ss| ==> ss[j] == ss[1..][j - 1];
    }
  }

  /** The signer one entry becomes, given the token a new signer would get. */
  function MergedEntry(existing: seq<Signer>, p: SignerPatch, token: string, now: Time): Signer {
    match MatchOf(existing, p)
    case Some(k) => Overlay(existing[k], p)
    case None => NewSigner(p.email, p.name.GetOr(""), token, now)
  }

  /** The number of entries with no stored signer, each of which draws one
      token. */
  function FreshCount(existing: seq<Signer>, input: seq<SignerPatch>): nat {
    if |input| == 0 then 0
    else FreshCount(existing, input[..|input| - 1]) + (if MatchOf(existing, input[|input| - 1]).None? then 1 else 0)
  }

  /** `signers.map(...)`: entry `i` becomes the overlay of its stored signer,
      or a new pending signer whose token is drawn after those of the new
      entries before it, `gen(next)`, `gen(next + 1)`, ... in entry order. */
  function Merge(existing: seq<Signer>, input: seq<SignerPatch>, gen: nat -> string, next: nat, now: Time)
    : (r: seq<Signer>)
    ensures |r| == |input|
  {
    MapWithPrefix(input, MergeStep(existing, gen, next, now))
  }

  function MergeStep(existing: seq<Signer>, gen: nat -> string, next: nat, now: Time)
    : (seq<SignerPatch>, SignerPatch) -> Signer
  {
    (before, p) => MergedEntry(existing, p, gen(next + FreshCount(existing, before)), now)
  }

  /** Merging one more entry appends its signer, with the token after those
      of the new entries before it. */
  lemma {:induction false} MergeSnoc(existing: seq<Signer>, input: seq<SignerPatch>, i: nat, gen: nat -> string, next: nat, now: Time)
    requires i < |input|
    ensures Merge(existing, input[..i + 1], gen, next, now)
      == Merge(existing, input[..i], gen, next, now)
         + [MergedEntry(existing, input[i], gen(next + FreshCount(existing, input[..i])), now)]
    ensures FreshCount(existing, input[..i + 1])
      == FreshCount(existing, input[..i]) + (if MatchOf(existing, input[i]).None? then 1 else 0)
  {
    assert input[..i + 1][..i] == input[..i];
    var step := MergeStep(existing, gen, next, now);
    MapWithPrefixSnoc(input, i, step);
    assert step(input[..i], input[i]) == MergedEntry(existing, input[i], gen(next + FreshCount(existing, input[..i])), now);
  }

  lemma {:induction false} FreshCountAppend(existing: seq<Signer>, a: seq<SignerPatch>, b: seq<SignerPatch>)
    ensures FreshCount(existing, a + b) == FreshCount(existing, a) + FreshCount(existing, b)
    decreases |b|
  {
    if |b| == 0 {
      assert a + b == a;
    } else {
      var b' := b[..|b| - 1];
      assert (a + b)[..|a + b| - 1] == a + b';
      FreshCountAppend(existing, a, b');
    }
  }

  /** Entry `i` of the merge, with the token drawn after the new entries
      before it. */
  lemma {:induction false} MergeAt(existing: seq<Signer>, input: seq<SignerPatch>, gen: nat -> string, next: nat, now: Time, i: nat)
    requires i < |input|
    ensures Merge(existing, input, gen, next, now)[i]
      == MergedEntry(existing, input[i], gen(next + FreshCount(existing, input[..i])), now)
  {
    var step := MergeStep(existing, gen, next, now);
    assert Merge(existing, input, gen, next, now)[i] == step(input[..i], input[i]);
  }

  /** The merge has one signer per entry, in entry order, each with the
      entry's email lowercased; stored signers no entry names are dropped. */
  lemma {:induction false} MergeShape(existing: seq<Signer>, input: seq<SignerPatch>, gen: nat -> string, next: nat, now: Time)
    ensures var m := Merge(existing, input, gen, next, now);
      && |m| == |input|
      && forall i :: 0 <= i < |m| ==> m[i].email == Lower(input[i].email)
  {
    var m := Merge(existing, input, gen, next, now);
    forall i | 0 <= i < |m| ensures m[i].email == Lower(input[i].email) {
      MergeAt(existing, input, gen, next, now, i);
    }
  }

  /** A merged entry keeps every stored field it does not carry (token,
      expiry, status, times, rejection reason, signature, address and agent)
      and takes every field it does carry; the email is the lowercased one. */
  lemma {:induction false} MergeKeepsStored(existing: seq<Signer>, input: seq<SignerPatch>, gen: nat -> string, next: nat,
                         now: Time, i: nat)
    requires i < |input| && MatchOf(existing, input[i]).Some?
    ensures var s := existing[MatchOf(existing, input[i]).value];
      var m := Merge(existing, input, gen, next, now)[i];
      && s.email == input[i].email
      && m.email == Lower(input[i].email)
      && (input[i].name.None? ==> m.name == s.name)
      && (input[i].name.Some? ==> m.name == input[i].name.value)
      && (input[i].token.None? ==> m.token == s.token)
      && (input[i].token.Some? ==> m.token == input[i].token.value)
      && (input[i].tokenExpiry.None? ==> m.tokenExpiry == s.tokenExpiry)
      && (input[i].tokenExpiry.Some? ==> m.tokenExpiry == input[i].tokenExpiry.value)
      && (input[i].status.None? ==> m.status == s.status)
      && (input[i].status.Some? ==> m.status == input[i].status.value)
      && (input[i].signedAt.None? ==> m.signedAt == s.signedAt)
      && (input[i].signedAt.Some? ==> m.signedAt == input[i].signedAt)
      && (input[i].rejectedAt.None? ==> m.rejectedAt == s.rejectedAt)
      && (input[i].rejectedAt.Some? ==> m.rejectedAt == input[i].rejectedAt)
      && (input[i].rejectionReason.None? ==> m.rejectionReason == s.rejectionReason)
      && (input[i].rejectionReason.Some? ==> m.rejectionReason == input[i].rejectionReason.value)
      && (input[i].signatureData.None? ==> m.signatureData == s.signatureData)
      && (input[i].signatureData.Some? ==> m.signatureData == input[i].signatureData.value)
      && (input[i].ipAddress.None? ==> m.ipAddress == s.ipAddress)
      && (input[i].ipAddress.Some? ==> m.ipAddress == input[i].ipAddress.value)
      && (input[i].userAgent.None? ==> m.userAgent == s.userAgent)
      && (input[i].userAgent.Some? ==> m.userAgent == input[i].userAgent.value)
  {
    MergeAt(existing, input, gen, next, now, i);
  }

  /** The entries from `i` on draw tokens after all those before `i`: a new
      entry at `i` draws at least one. */
  lemma {:induction false} FreshCountSplit(existing: seq<Signer>, input: seq<SignerPatch>, i: nat, j: nat)
    requires i < j <= |input| && MatchOf(existing, input[i]).None?
    ensures FreshCount(existing, input[..i]) < FreshCount(existing, input[..j])
  {
    assert input[..j] == input[..i] + input[i..j];
    FreshCountAppend(existing, input[..i], input[i..j]);
    assert input[i..j] == [input[i]] + input[i + 1..j];
    FreshCountAppend(existing, [input[i]], input[i + 1..j]);
    assert [input[i]][..0] == [];
  }

  /** An entry with no stored signer becomes a pending signer with a 7-day
      link, keeping only its email and name, and its token is one of the
      `FreshCount` tokens drawn from `next` on. */
  lemma {:induction false} MergeNewEntry(existing: seq<Signer>, input: seq<SignerPatch>, gen: nat -> string, next: nat,
                      now: Time, i: nat)
    requires i < |input| && MatchOf(existing, input[i]).None?
    ensures var m := Merge(existing, input, gen, next, now)[i];
      && m.status == SignerStatus.Pending && m.signedAt.None? && m.signatureData == ""
      && m.email == Lower(input[i].email) && m.name == input[i].name.GetOr("")
      && m.tokenExpiry == now + TokenLifetime
      && m.rejectedAt.None? && m.rejectionReason == "" && m.ipAddress == "" && m.userAgent == ""
      && exists n: nat :: next <= n < next + FreshCount(existing, input) && m.token == gen(n)
  {
    MergeAt(existing, input, gen, next, now, i);
    FreshCountSplit(existing, input, i, |input|);
    assert input[..|input|] == input;
  }

  /** Two new entries never share a token when the token source never
      repeats itself. */
  lemma {:induction false} MergeFreshDistinct(existing: seq<Signer>, input: seq<SignerPatch>, gen: nat -> string, next: nat,
                           now: Time, i: nat, j: nat)
    requires forall a: nat, b: nat :: gen(a) == gen(b) ==> a == b
    requires i < j < |input|
    requires MatchOf(existing, input[i]).None? && MatchOf(existing, input[j]).None?
    ensures Merge(existing, input, gen, next, now)[i].token != Merge(existing, input, gen, next, now)[j].token
  {
    MergeAt(existing, input, gen, next, now, i);
    MergeAt(existing, input, gen, next, now, j);
    FreshCountSplit(existing, input, i, j);
  }

  /** What a save accepts: the schema requires every signer's email and every
      field's signer email. */
  predicate SaveValid(ss: seq<Signer>, fields: seq<Field>) {
    && (forall i :: 0 <= i < |ss| ==> ss[i].email != "")
    && (forall i :: 0 <= i < |fields| ==> fields[i].signerEmail != "")
  }

  function CastFields(fs: seq<FieldInput>): (r: seq<Field>)
    ensures |r| == |fs| && forall i :: 0 <= i < |fs| ==> r[i] == CastField(fs[i])
  {
    seq(|fs|, i requires 0 <= i < |fs| => CastField(fs[i]))
  }

  /** The callback of that `map` for one entry. */
  method MergeEntry(existing: seq<Signer>, p: SignerPatch, tokens: TokenSource, now: Time) returns (entry: Signer)
    requires tokens.Valid()
    modifies tokens
    ensures tokens.Valid()
    ensures entry == MergedEntry(existing, p, tokens.gen(old(tokens.next)), now)
    ensures tokens.next == old(tokens.next) + (if MatchOf(existing, p).None? then 1 else 0)
  {
    var found := MatchOf(existing, p);
    if found.Some? {
      entry := Overlay(existing[found.value], p);
    } else {
      var token := tokens.Mint();
      entry := NewSigner(p.email, p.name.GetOr(""), token, now);
    }
  }

  /** The `signers.map(...)` of `PUT /:id`, drawing a token only for the
      entries that have no stored signer. */
  method MergeSigners(existing: seq<Signer>, input: seq<SignerPatch>, tokens: TokenSource, now: Time)
    returns (merged: seq<Signer>)
    requires tokens.Valid()
    modifies tokens
    ensures tokens.Valid()
    ensures merged == Merge(existing, input, tokens.gen, old(tokens.next), now)
    ensures tokens.next == old(tokens.next) + FreshCount(existing, input)
  {
    merged := [];
    for i := 0 to |input|
      invariant tokens.Valid()
      invariant merged == Merge(existing, input[..i], tokens.gen, old(tokens.next), now)
      invariant tokens.next == old(tokens.next) + FreshCount(existing, input[..i])
    {
      MergeSnoc(existing, input, i, tokens.gen, old(tokens.next), now);
      var entry := MergeEntry(existing, input[i], tokens, now);
      merged := merged + [entry];
    }
    assert input[..|input|] == input;
  }

  /** `PUT /:id` for fields, expiry and signers. The merged list replaces
      the stored one; a list that the schema then refuses (an empty email)
      makes the save fail with 500 and leaves the document as it was. */
  method UpdateDocument(doc: Document, tokens: TokenSource, user: User, patch: DocumentPatch, now: Time)
    returns (r: Result<()>)
    requires tokens.Valid()
    modifies doc`signers, doc`fields, doc`expiresAt, tokens
    ensures tokens.Valid()
    ensures user.id != doc.owner ==> r == Err(NotFound)
    ensures var ss := if patch.signers.Some? then Merge(old(doc.signers), patch.signers.value, tokens.gen, old(tokens.next), now)
                      else old(doc.signers);
      var fs := if patch.fields.Some? then CastFields(patch.fields.value) else old(doc.fields);
      && (r.Ok? <==> user.id == doc.owner && SaveValid(ss, fs))
      && (r.Ok? ==> doc.signers == ss && doc.fields == fs && doc.expiresAt == patch.expiresAt.GetOr(old(doc.expiresAt)))
    ensures r.Err? ==> doc.signers == old(doc.signers) && doc.fields == old(doc.fields) && doc.expiresAt == old(doc.expiresAt)
    ensures r.Err? ==> r.error == NotFound || r.error == ServerError
    ensures tokens.next == old(tokens.next)
      + (if user.id == doc.owner && patch.signers.Some? then FreshCount(old(doc.signers), patch.signers.value) else 0)
  {
    if user.id != doc.owner {
      return Err(NotFound);
    }
    var fields := if patch.fields.Some? then CastFields(patch.fields.value) else doc.fields;
    var expiresAt := patch.expiresAt.GetOr(doc.expiresAt);
    var signers := doc.signers;
    if patch.signers.Some? {
      signers := MergeSigners(doc.signers, patch.signers.value, tokens, now);
    }
    if !SaveValid(signers, fields) {
      return Err(ServerError);
    }
    doc.signers := signers;
    doc.fields := fields;
    doc.expiresAt := expiresAt;
    return Ok(());
  }

  // ---------------------------------------------------------------------
  // send

  /** The `forEach` of send: a signer without a token gets the next fresh
      one and a 7-day expiry; every other signer is left as it is. */
  function RepairTokens(ss: seq<Signer>, gen: nat -> string, next: nat, now: Time): seq<Signer> {
    if |ss| == 0 then []
    else if ss[0].token == "" then
      [ss[0].(token := gen(next), tokenExpiry := now + TokenLifetime)] + RepairTokens(ss[1..], gen, next + 1, now)
    else [ss[0]] + RepairTokens(ss[1..], gen, next, now)
  }

  /** Repair changes only the token and expiry of the signers that had no
      token; afterwards every signer holds a token. */
  lemma {:induction false} RepairTokensFacts(ss: seq<Signer>, gen: nat -> string, next: nat, now: Time)
    ensures var r := RepairTokens(ss, gen, next, now);
      && |r| == |ss|
      && (forall i :: 0 <= i < |ss| && ss[i].token != "" ==> r[i] == ss[i])
      && (forall i :: 0 <= i < |ss| && ss[i].token == "" ==>
            r[i] == ss[i].(token := r[i].token, tokenExpiry := now + TokenLifetime))
      && ((forall n: nat :: gen(n) != "") ==> forall i :: 0 <= i < |r| ==> r[i].token != "")
  {
    if |ss| > 0 {
      var next' := if ss[0].token == "" then next + 1 else next;
      RepairTokensFacts(ss[1..], gen, next', now);
      var r := RepairTokens(ss, gen, next, now);
      assert forall i :: 1 <= i < |ss| ==> r[i] == RepairTokens(ss[1..], gen, next', now)[i - 1];
    }
  }

  /** A list already holding a token for every signer is left unchanged. */
  lemma {:induction false} RepairTokensIdle(ss: seq<Signer>, gen: nat -> string, next: nat, now: Time)
    requires forall i :: 0 <= i < |ss| ==> ss[i].token != ""
    ensures RepairTokens(ss, gen, next, now) == ss
  {
    if |ss| > 0 {
      RepairTokensIdle(ss[1..], gen, next, now);
    }
  }

  /** The number of signers without a token: each draws one in send. */
  function Tokenless(ss: seq<Signer>): nat {
    if |ss| == 0 then 0 else (if ss[0].token == "" then 1 else 0) + Tokenless(ss[1..])
  }

  /** Repairing from `i` on repairs signer `i`, then the rest with the
      tokens after the one it drew. */
  lemma RepairStep(ss: seq<Signer>, i: nat, gen: nat -> string, next: nat, now: Time)
    requires i < |ss|
    ensures RepairTokens(ss[i..], gen, next, now)
      == RepairTokens([ss[i]], gen, next, now)
         + RepairTokens(ss[i + 1..], gen, next + (if ss[i].token == "" then 1 else 0), now)
  {
    assert ss[i..][0] == ss[i] && ss[i..][1..] == ss[i + 1..];
    assert [ss[i]][1..] == [];
  }

  /** The body of that `forEach` for one signer. */
  method RepairToken(signer: Signer, tokens: TokenSource, now: Time) returns (repaired: Signer)
    requires tokens.Valid()
    modifies tokens
    ensures tokens.Valid()
    ensures RepairTokens([signer], tokens.gen, old(tokens.next), now) == [repaired]
    ensures tokens.next == old(tokens.next) + (if signer.token == "" then 1 else 0)
  {
    repaired := signer;
    if signer.token == "" {
      var token := tokens.Mint();
      repaired := signer.(token := token, tokenExpiry := now + TokenLifetime);
    }
  }

  /** The `forEach` of send over the stored signers, updating each in place. */
  method RepairAll(doc: Document, tokens: TokenSource, now: Time)
    requires tokens.Valid()
    modifies doc`signers, tokens
    ensures tokens.Valid()
    ensures doc.signers == RepairTokens(old(doc.signers), tokens.gen, old(tokens.next), now)
    ensures tokens.next == old(tokens.next) + Tokenless(old(doc.signers))
  {
    ghost var before := doc.signers;
    for i := 0 to |doc.signers|
      invariant tokens.Valid()
      invariant tokens.next + Tokenless(before[i..]) == old(tokens.next) + Tokenless(before)
      invariant |doc.signers| == |before| && doc.signers[i..] == before[i..]
      invariant doc.signers[..i] + RepairTokens(before[i..], tokens.gen, tokens.next, now)
        == RepairTokens(before, tokens.gen, old(tokens.next), now)
    {
      ghost var current, next0 := doc.signers, tokens.next;
      var signer := RepairToken(doc.signers[i], tokens, now);
      RepairAdvance(before, current, i, tokens.gen, old(tokens.next), next0, now, signer);
      doc.signers := doc.signers[i := signer];
    }
    assert doc.signers[..|doc.signers|] == doc.signers;
  }

  /** One step of that loop: once signer `i` is replaced by its repair, the
      repaired prefix grows by one and the rest is still to be repaired. */
  lemma RepairAdvance(before: seq<Signer>, current: seq<Signer>, i: nat, gen: nat -> string, start: nat,
                      next: nat, now: Time, signer: Signer)
    requires i < |before| && |current| == |before| && current[i..] == before[i..]
    requires current[..i] + RepairTokens(before[i..], gen, next, now) == RepairTokens(before, gen, start, now)
    requires RepairTokens([before[i]], gen, next, now) == [signer]
    ensures var after := current[i := signer];
      && after[i + 1..] == before[i + 1..]
      && after[..i + 1] + RepairTokens(before[i + 1..], gen, next + (if before[i].token == "" then 1 else 0), now)
         == RepairTokens(before, gen, start, now)
    ensures Tokenless(before[i..]) == (if before[i].token == "" then 1 else 0) + Tokenless(before[i + 1..])
  {
    assert before[i..][1..] == before[i + 1..];
    RepairStep(before, i, gen, next, now);
    var after := current[i := signer];
    assert after[..i + 1] == current[..i] + [signer];
    assert after[i + 1..] == current[i + 1..];
    assert current[i + 1..] == current[i..][1..];
  }

  datatype SigningLink = SigningLink(email: string, link: string)

  /** `${CLIENT_URL}/sign/${token}`. */
  function LinkFor(baseUrl: string, token: string): (link: string)
    ensures |link| == |baseUrl| + 6 + |token|
    ensures link[..|baseUrl|] == baseUrl && link[|baseUrl|..|baseUrl| + 6] == "/sign/"
    ensures link[|baseUrl| + 6..] == token
  {
    baseUrl + "/sign/" + token
  }

  /** One link per signer, in list order. */
  function Links(ss: seq<Signer>, baseUrl: string): (r: seq<SigningLink>)
    ensures |r| == |ss|
  {
    seq(|ss|, i requires 0 <= i < |ss| => SigningLink(ss[i].email, LinkFor(baseUrl, ss[i].token)))
  }

  /** The token at the end of each link resolves to the signer it was built
      for, as long as no two signers share a token. */
  lemma LinksResolve(ss: seq<Signer>, baseUrl: string, i: nat)
    requires i < |ss| && ss[i].token != ""
    requires forall j, k :: 0 <= j < k < |ss| ==> ss[j].token != ss[k].token
    ensures var link := Links(ss, baseUrl)[i];
      && link.email == ss[i].email
      && FindByToken(ss, link.link[|baseUrl| + 6..]) == Some(i)
  {
    TokenResolvesToHolder(ss, i);
  }

  function Emails(ss: seq<Signer>): (r: seq<string>)
    ensures |r| == |ss| && forall i :: 0 <= i < |ss| ==> r[i] == ss[i].email
  {
    seq(|ss|, i requires 0 <= i < |ss| => ss[i].email)
  }

  /** `POST /:id/send`. The status becomes `pending` whatever it was before,
      even `signed` or `rejected`. `accepted` says whether the audit store
      takes the `document_sent` record. */
  method Send(doc: Document, tokens: TokenSource, store: AuditStore, user: User, baseUrl: string,
              now: Time, req: Request, accepted: bool)
    returns (r: Result<seq<SigningLink>>)
    requires tokens.Valid()
    modifies doc`status, doc`signers, tokens, store
    ensures tokens.Valid()
    ensures user.id != doc.owner ==> r == Err(NotFound)
    ensures user.id == doc.owner && |old(doc.signers)| == 0 ==> r == Err(BadRequest)
    ensures r.Ok? <==> user.id == doc.owner && |old(doc.signers)| > 0
    ensures r.Err? ==> doc.status == old(doc.status) && doc.signers == old(doc.signers)
                       && store.records == old(store.records) && tokens.next == old(tokens.next)
    ensures r.Ok? ==> tokens.next == old(tokens.next) + Tokenless(old(doc.signers))
    ensures r.Ok? ==> && doc.status == DocStatus.Pending
                      && doc.signers == RepairTokens(old(doc.signers), tokens.gen, old(tokens.next), now)
                      && r.value == Links(doc.signers, baseUrl)
                      && store.records == old(store.records)
                           + Appended(doc.id, DocumentSent, user.email, None,
                                      Some(map["signers" := StrList(Emails(doc.signers))]), Some(req), now, accepted)
  {
    if user.id != doc.owner {
      return Err(NotFound);
    }
    if |doc.signers| == 0 {
      return Err(BadRequest);
    }
    doc.status := DocStatus.Pending;
    RepairAll(doc, tokens, now);
    CreateAuditLog(store, doc.id, DocumentSent, user.email, None,
      Some(map["signers" := StrList(Emails(doc.signers))]), Some(req), now, accepted);
    return Ok(Links(doc.signers, baseUrl));
  }
}
