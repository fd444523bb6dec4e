/** Shared vocabulary of the signing-workflow model: optional values, the
    error kinds the HTTP layer maps to status codes, time, request metadata,
    and the list operations (`find`, `filter`) the handlers are built from. */
module Base {

  datatype Option<+T> = None | Some(value: T) {
    function GetOr(default: T): T {
      match this
      case Some(v) => v
      case None => default
    }
  }

  /** The error kinds the handlers answer with. */
  datatype Failure =
    | BadRequest   // 400: a required input is missing
    | NotFound     // 404: document, signer or token unknown
    | Conflict     // 409: duplicate signer, already signed
    | Gone         // 410: signing link or document expired
    | ServerError  // 500: an exception reaches the error middleware

  datatype Result<+T> = Ok(value: T) | Err(error: Failure)

  /** Milliseconds since the epoch, as JavaScript's Date.now(). */
  type Time = int

  const DayMs: int := 24 * 60 * 60 * 1000
  /** Lifetime of a signing link (tokenExpiry = issue time + 7 days). */
  const TokenLifetime: int := 7 * DayMs
  /** Lifetime of a document (expiresAt = creation time + 30 days). */
  const DocumentLifetime: int := 30 * DayMs

  type DocId = nat
  type UserId = nat

  /** The authenticated owner making a request. */
  datatype User = User(id: UserId, email: string)

  /** What the handlers read from an HTTP request: `req.ip`, the
      `x-forwarded-for` header and the `user-agent` header; "" when absent. */
  datatype Request = Request(ip: string, forwardedFor: string, userAgent: string)

  /** JavaScript's `a || b` on strings: the empty string is falsy. */
  function Or(a: string, b: string): string {
    if a != "" then a else b
  }

  /** `toLowerCase` on the ASCII and Latin-1 capitals (U+00C0 to U+00DE
      except the multiplication sign U+00D7), each 32 code points below its
      small letter; other characters are kept. */
  function LowerChar(c: char): char {
    if 'A' <= c <= 'Z' || ('\U{00C0}' <= c <= '\U{00DE}' && c != '\U{00D7}') then (c as int + 32) as char else c
  }

  function Lower(s: string): (r: string)
    ensures |r| == |s|
    ensures forall i :: 0 <= i < |s| ==> r[i] == LowerChar(s[i])
  {
    seq(|s|, i requires 0 <= i < |s| => LowerChar(s[i]))
  }

  lemma LowerIdempotent(s: string)
    ensures Lower(Lower(s)) == Lower(s)
  {
    assert forall i :: 0 <= i < |s| ==> Lower(Lower(s))[i] == Lower(s)[i];
  }

  function StartsWith(s: string, prefix: string): bool {
    |prefix| <= |s| && s[..|prefix|] == prefix
  }

  /** `s.includes(sub)`: `sub` occurs at some position of `s`. */
  function Contains(s: string, sub: string): bool
    decreases |s|
  {
    StartsWith(s, sub) || (|s| > 0 && Contains(s[1..], sub))
  }

  /** The text between the first and the second comma of `s`
      (`s.split(',')[1]`), or None when `s` has no comma. */
  function AfterFirstComma(s: string): (r: Option<string>)
    ensures r.None? <==> ',' !in s
    ensures r.Some? ==> ',' !in r.value
  {
    if |s| == 0 then None
    else if s[0] == ',' then Some(UpToComma(s[1..]))
    else AfterFirstComma(s[1..])
  }

  function UpToComma(s: string): (r: string)
    ensures ',' !in r && |r| <= |s| && r == s[..|r|]
  {
    if |s| == 0 || s[0] == ',' then "" else [s[0]] + UpToComma(s[1..])
  }

  /** JavaScript's `Array.prototype.find`, as the index of the first element
      satisfying `p`. */
  function FindFirst<T>(xs: seq<T>, p: T -> bool): (r: Option<nat>)
    ensures r.Some? ==> r.value < |xs| && p(xs[r.value])
    ensures r.Some? ==> forall j :: 0 <= j < r.value ==> !p(xs[j])
    ensures r.None? <==> forall j :: 0 <= j < |xs| ==> !p(xs[j])
  {
    if |xs| == 0 then None
    else if p(xs[0]) then Some(0)
    else match FindFirst(xs[1..], p)
      case None => None
      case Some(k) => Some(k + 1)
  }

  /** JavaScript's `Array.prototype.filter`. */
  function Filter<T>(xs: seq<T>, p: T -> bool): (r: seq<T>)
    ensures |r| <= |xs|
    ensures forall i :: 0 <= i < |r| ==> r[i] in xs && p(r[i])
    ensures forall i :: 0 <= i < |xs| && p(xs[i]) ==> xs[i] in r
  {
    if |xs| == 0 then []
    else if p(xs[0]) then [xs[0]] + Filter(xs[1..], p)
    else Filter(xs[1..], p)
  }

  /** `xs.flatMap(f)`, built from the back so that a loop over `xs` extends it
      one element at a time. */
  function ConcatMap<T, U>(xs: seq<T>, f: T -> seq<U>): seq<U> {
    if |xs| == 0 then [] else ConcatMap(xs[..|xs| - 1], f) + f(xs[|xs| - 1])
  }

  /** `xs.map(...)` where the image of each element may also depend on the
      elements before it. */
  function MapWithPrefix<T, U>(xs: seq<T>, f: (seq<T>, T) -> U): (r: seq<U>)
    ensures |r| == |xs|
  {
    seq(|xs|, i requires 0 <= i < |xs| => f(xs[..i], xs[i]))
  }

  lemma MapWithPrefixSnoc<T, U>(xs: seq<T>, i: nat, f: (seq<T>, T) -> U)
    requires i < |xs|
    ensures MapWithPrefix(xs[..i + 1], f) == MapWithPrefix(xs[..i], f) + [f(xs[..i], xs[i])]
  {
    var longer, shorter := xs[..i + 1], xs[..i];
    var a, b := MapWithPrefix(longer, f), MapWithPrefix(shorter, f);
    forall j | 0 <= j < i ensures a[j] == b[j] {
      assert longer[..j] == shorter[..j];
      assert longer[j] == shorter[j];
    }
    assert longer[..i] == shorter && longer[i] == xs[i];
    assert a == b + [f(shorter, xs[i])];
  }

  lemma {:induction false} ConcatMapAppend<T, U>(a: seq<T>, b: seq<T>, f: T -> seq<U>)
    ensures ConcatMap(a + b, f) == ConcatMap(a, f) + ConcatMap(b, f)
    decreases |b|
  {
    if |b| == 0 {
      assert a + b == a;
    } else {
      var b' := b[..|b| - 1];
      assert (a + b)[..|a + b| - 1] == a + b';
      ConcatMapAppend(a, b', f);
    }
  }

  /** Filtering distributes over concatenation, so it keeps the relative
      order of the elements it keeps. */
  lemma {:induction false} FilterAppend<T>(a: seq<T>, b: seq<T>, p: T -> bool)
    ensures Filter(a + b, p) == Filter(a, p) + Filter(b, p)
  {
    if |a| == 0 {
      assert a + b == b;
    } else {
      assert (a + b)[1..] == a[1..] + b;
      FilterAppend(a[1..], b, p);
    }
  }

  /** Filtering keeps every element that satisfies `p` with its multiplicity. */
  lemma {:induction false} FilterMultiset<T>(xs: seq<T>, p: T -> bool, x: T)
    ensures multiset(Filter(xs, p))[x] == if p(x) then multiset(xs)[x] else 0
  {
    if |xs| > 0 {
      assert xs == [xs[0]] + xs[1..];
      FilterMultiset(xs[1..], p, x);
    }
  }

  /** A filter that every element passes is the identity. */
  lemma {:induction false} FilterAll<T>(xs: seq<T>, p: T -> bool)
    requires forall i :: 0 <= i < |xs| ==> p(xs[i])
    ensures Filter(xs, p) == xs
  {
    if |xs| > 0 {
      FilterAll(xs[1..], p);
    }
  }
}
