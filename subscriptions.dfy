/**
 * The Subscription record: its four statuses, email normalisation, the `creating` and
 * `updating` hooks that run on every save, the three status transitions, the `meta`
 * dictionary the handlers merge keys into, and `validateEmail`.
 */
module Subscriptions {
  import opened Wrappers
  import opened Text
  import opened Http
  import opened Foreign

  /** The `status` enum column. */
  datatype Status = Pending | Subscribed | Unsubscribed | Bounced

  /** The stored text of each status, as the API echoes it. */
  function StatusName(s: Status): string {
    match s
    case Pending => "pending"
    case Subscribed => "subscribed"
    case Unsubscribed => "unsubscribed"
    case Bounced => "bounced"
  }

  /** Different statuses are stored as different texts, so `===` on the column is `==` here. */
  lemma StatusNamesDistinct(a: Status, b: Status)
    ensures StatusName(a) == StatusName(b) <==> a == b
  {
  }

  /**
   * One row of `subscriptions`. `meta` is the JSON value of the `meta` column (null, an
   * object or a list); `confirmedAt` the nullable `confirmed_at` timestamp.
   */
  datatype Subscription = Subscription(
    id: nat,
    projectId: nat,
    email: string,
    status: Status,
    ip: Option<string>,
    userAgent: Option<string>,
    referrer: Option<string>,
    sourceUrl: Option<string>,
    meta: Json,
    confirmedAt: Option<Time>)

  /** The stored form of an email: no surrounding whitespace and no capital letter. */
  predicate Normal(e: string) {
    Trimmed(e) && forall i :: 0 <= i < |e| ==> !('A' <= e[i] <= 'Z')
  }

  /** `strtolower(trim($email))`, the form in which emails are stored and looked up. */
  function NormalizeEmail(s: string): (r: string)
    ensures Normal(r)
    ensures |r| <= |s|
    ensures Normal(s) ==> r == s
  {
    LowerTrimNormal(s);
    NormalFixed(s);
    Lower(Trim(s))
  }

  lemma LowerTrimNormal(s: string)
    ensures Normal(Lower(Trim(s)))
  {
    TrimLowerCommute(s);
    LowerHasNoCapitals(Trim(s));
  }

  lemma LowerHasNoCapitals(t: string)
    ensures forall i :: 0 <= i < |Lower(t)| ==> !('A' <= Lower(t)[i] <= 'Z')
  {
    var r := Lower(t);
    forall i | 0 <= i < |r| ensures !('A' <= r[i] <= 'Z') {
      assert r[i] == LowerChar(t[i]);
    }
  }

  lemma NormalFixed(s: string)
    ensures Normal(s) ==> Lower(Trim(s)) == s
  {
    if Normal(s) {
      TrimOfTrimmed(s);
      assert Lower(s) == s;
    }
  }

  /** Normalising twice changes nothing, so the hooks agree with the handlers' lookup key. */
  lemma NormalizeIdempotent(s: string)
    ensures NormalizeEmail(NormalizeEmail(s)) == NormalizeEmail(s)
  {
  }

  /** The `creating` hook: the email is normalised, nothing else changes. */
  function Creating(s: Subscription): (r: Subscription)
    ensures r.email == NormalizeEmail(s.email)
    ensures r == s.(email := r.email)
  {
    s.(email := NormalizeEmail(s.email))
  }

  /**
   * The `updating` hook, given the row as loaded (`before`) and the dirty model
   * (`after`): the email is normalised, and `confirmed_at` becomes `now` when the status
   * changed, is now subscribed and `confirmed_at` is null.
   */
  function Updating(before: Subscription, after: Subscription, now: Time): (r: Subscription)
    ensures r.email == NormalizeEmail(after.email)
    ensures r.confirmedAt != after.confirmedAt <==>
              after.status != before.status && after.status == Subscribed && after.confirmedAt.None?
    ensures r.confirmedAt != after.confirmedAt ==> r.confirmedAt == Some(now)
    ensures r == after.(email := r.email, confirmedAt := r.confirmedAt)
  {
    var stamped :=
      if after.status != before.status && after.status == Subscribed && after.confirmedAt.None?
      then Some(now) else after.confirmedAt;
    after.(email := NormalizeEmail(after.email), confirmedAt := stamped)
  }

  /** Eloquent `save()` on an existing row: a clean model is not written and fires no hook. */
  function Save(before: Subscription, after: Subscription, now: Time): (r: Subscription)
    ensures after == before ==> r == before
    ensures after != before ==> r == Updating(before, after, now)
  {
    if after == before then before else Updating(before, after, now)
  }

  /** Emails already in stored form survive every save. */
  lemma SaveKeepsNormalEmail(before: Subscription, after: Subscription, now: Time)
    requires Normal(before.email)
    requires after.email == before.email
    ensures Save(before, after, now).email == before.email
  {
  }

  /** `subscribe()`: status subscribed and `confirmed_at` overwritten with now, even if set. */
  function Subscribe(s: Subscription, now: Time): (r: Subscription)
    ensures r.status == Subscribed && r.confirmedAt == Some(now)
    ensures r.email == NormalizeEmail(s.email) || r.email == s.email
    ensures Normal(s.email) ==> r.email == s.email
    ensures r == s.(status := Subscribed, confirmedAt := Some(now), email := r.email)
  {
    Save(s, s.(status := Subscribed, confirmedAt := Some(now)), now)
  }

  /** `unsubscribe()`: only the status changes; `confirmed_at` survives. */
  function Unsubscribe(s: Subscription, now: Time): (r: Subscription)
    ensures r.status == Unsubscribed && r.confirmedAt == s.confirmedAt
    ensures r.email == NormalizeEmail(s.email) || r.email == s.email
    ensures Normal(s.email) ==> r.email == s.email
    ensures r == s.(status := Unsubscribed, email := r.email)
  {
    Save(s, s.(status := Unsubscribed), now)
  }

  /** `markAsBounced()`: only the status changes; `confirmed_at` survives. */
  function MarkAsBounced(s: Subscription, now: Time): (r: Subscription)
    ensures r.status == Bounced && r.confirmedAt == s.confirmedAt
    ensures r.email == NormalizeEmail(s.email) || r.email == s.email
    ensures Normal(s.email) ==> r.email == s.email
    ensures r == s.(status := Bounced, email := r.email)
  {
    Save(s, s.(status := Bounced), now)
  }

  /** `$subscription->update(['meta' => $meta])`. */
  function WithMeta(s: Subscription, meta: Json, now: Time): (r: Subscription)
    ensures r.meta == meta && r.status == s.status && r.confirmedAt == s.confirmedAt
    ensures r.email == NormalizeEmail(s.email) || r.email == s.email
    ensures Normal(s.email) ==> r.email == s.email
    ensures r == s.(meta := meta, email := r.email)
  {
    Save(s, s.(meta := meta), now)
  }

  /** The shapes the `array` cast and the `array` rule let into `meta`. */
  predicate MetaShaped(meta: Json) {
    meta.JNull? || meta.JObject? || meta.JList?
  }

  /** A PHP list read as a dictionary with keys "0", "1", ... */
  function ListFields(items: seq<Json>): map<string, Json>
    decreases |items|
  {
    if items == [] then map[]
    else ListFields(items[..|items| - 1])[NatText(|items| - 1) := items[|items| - 1]]
  }

  /** The dictionary `$subscription->meta ?? []` starts from. */
  function MetaFields(meta: Json): map<string, Json> {
    match meta
    case JObject(fields) => fields
    case JList(items) => ListFields(items)
    case _ => map[]
  }

  /**
   * `$meta = $subscription->meta ?? []; $meta[k] = v; ...`: the new keys are written over
   * the old dictionary; every other key is kept.
   */
  function MergeMeta(meta: Json, kvs: map<string, Json>): (r: Json)
    ensures r.JObject? && MetaShaped(r)
    ensures forall k :: k in kvs ==> k in r.fields && r.fields[k] == kvs[k]
    ensures forall k :: k in MetaFields(meta) && k !in kvs ==> k in r.fields && r.fields[k] == MetaFields(meta)[k]
    ensures r.fields.Keys == MetaFields(meta).Keys + kvs.Keys
  {
    JObject(MetaFields(meta) + kvs)
  }

  // ---------------------------------------------------------------------------------
  // validateEmail

  const InvalidFormat := "Invalid email format"
  const NotRfc := "Email does not meet RFC standards"
  const DisposableDomain := "Disposable email domains are not allowed"

  predicate Letter(c: char) {
    'a' <= c <= 'z' || 'A' <= c <= 'Z'
  }

  predicate Digit(c: char) {
    '0' <= c <= '9'
  }

  /** `[a-zA-Z0-9._%+-]` */
  predicate LocalChar(c: char) {
    Letter(c) || Digit(c) || c == '.' || c == '_' || c == '%' || c == '+' || c == '-'
  }

  /** `[a-zA-Z0-9.-]` */
  predicate DomainChar(c: char) {
    Letter(c) || Digit(c) || c == '.' || c == '-'
  }

  predicate AllLocal(a: string) {
    forall k :: 0 <= k < |a| ==> LocalChar(a[k])
  }

  predicate AllDomain(x: string) {
    forall k :: 0 <= k < |x| ==> DomainChar(x[k])
  }

  predicate AllLetters(t: string) {
    forall k :: 0 <= k < |t| ==> Letter(t[k])
  }

  /**
   * The strings `^[a-zA-Z0-9._%+-]+@[a-zA-Z0-9.-]+\.[a-zA-Z]{2,}` matches up to its end:
   * a non-empty local part, '@' at i, a non-empty domain part, '.' at j and two or more letters.
   */
  predicate RfcShape(s: string) {
    exists i, j :: 0 < i < j < |s| && i + 1 < j && j + 2 < |s| &&
      s[i] == '@' && s[j] == '.' &&
      AllLocal(s[..i]) && AllDomain(s[i + 1..j]) && AllLetters(s[j + 1..])
  }

  /** `preg_match` of the pattern; its `$` also matches before one final "\n". */
  predicate MatchesRfcPattern(s: string) {
    RfcShape(s) || (s != [] && s[|s| - 1] == '\n' && RfcShape(s[..|s| - 1]))
  }

  /** The domain `validateEmail` checks: `substr(strrchr($email, '@'), 1)`. */
  function EmailDomain(email: string): string {
    AfterLast(email, '@')
  }

  /** What `validateEmail` returns: `valid`, `errors` and the normalised `email`. */
  datatype EmailCheck = EmailCheck(valid: bool, errors: seq<string>, email: string)

  /**
   * The verdict `Subscription::validateEmail` returns. `disposable` is
   * `config('newsletter.disposable_domains')` (no such key is configured, so the running
   * list is empty). A format failure is reported alone; otherwise the pattern and the
   * disposable-domain errors accumulate in that order.
   */
  function EmailVerdict(f: Oracles, disposable: seq<string>, raw: string): (c: EmailCheck)
    ensures c.email == NormalizeEmail(raw)
  {
    EmailChecks(f, disposable, NormalizeEmail(raw))
  }

  /** The checks `validateEmail` runs on the normalised address. */
  function EmailChecks(f: Oracles, disposable: seq<string>, email: string): (c: EmailCheck)
    ensures c.email == email
  {
    if !f.filterEmail(email) then EmailCheck(false, [InvalidFormat], email)
    else
      var errors := (if MatchesRfcPattern(email) then [] else [NotRfc]) +
                    (if EmailDomain(email) in disposable then [DisposableDomain] else []);
      EmailCheck(errors == [], errors, email)
  }

  /**
   * The verdict is valid exactly when no error is reported; a format failure is reported
   * alone; the pattern error and the disposable-domain error each appear exactly when
   * their check fails after the format check passed, and in that order.
   */
  lemma EmailVerdictErrors(f: Oracles, disposable: seq<string>, raw: string)
    ensures var c := EmailVerdict(f, disposable, raw);
            && (c.valid <==> c.errors == [])
            && (InvalidFormat in c.errors <==> !f.filterEmail(c.email))
            && (InvalidFormat in c.errors ==> c.errors == [InvalidFormat])
            && (NotRfc in c.errors <==> f.filterEmail(c.email) && !MatchesRfcPattern(c.email))
            && (DisposableDomain in c.errors <==> f.filterEmail(c.email) && EmailDomain(c.email) in disposable)
            && |c.errors| <= 2 && (|c.errors| == 2 ==> c.errors == [NotRfc, DisposableDomain])
  {
    ChecksErrors(f, disposable, NormalizeEmail(raw));
  }

  lemma ChecksErrors(f: Oracles, disposable: seq<string>, email: string)
    ensures var c := EmailChecks(f, disposable, email);
            && (c.valid <==> c.errors == [])
            && (InvalidFormat in c.errors <==> !f.filterEmail(c.email))
            && (InvalidFormat in c.errors ==> c.errors == [InvalidFormat])
            && (NotRfc in c.errors <==> f.filterEmail(c.email) && !MatchesRfcPattern(c.email))
            && (DisposableDomain in c.errors <==> f.filterEmail(c.email) && EmailDomain(c.email) in disposable)
            && |c.errors| <= 2 && (|c.errors| == 2 ==> c.errors == [NotRfc, DisposableDomain])
  {
    var c := EmailChecks(f, disposable, email);
    if f.filterEmail(email) {
      var rfc := MatchesRfcPattern(email);
      var disp := EmailDomain(email) in disposable;
      assert c.errors == (if rfc then [] else [NotRfc]) + (if disp then [DisposableDomain] else []);
      assert InvalidFormat != NotRfc && InvalidFormat != DisposableDomain && NotRfc != DisposableDomain;
    }
  }

  /** `Subscription::validateEmail`: the errors list built up check by check. */
  method ValidateEmail(f: Oracles, disposable: seq<string>, raw: string) returns (c: EmailCheck)
    ensures c == EmailVerdict(f, disposable, raw)
  {
    var email := NormalizeEmail(raw);
    c := CheckNormalized(f, disposable, email);
  }

  /** The checks of `validateEmail` after the address has been normalised. */
  method CheckNormalized(f: Oracles, disposable: seq<string>, email: string) returns (c: EmailCheck)
    ensures c == EmailChecks(f, disposable, email)
  {
    var errors: seq<string> := [];
    if !f.filterEmail(email) {
      errors := errors + [InvalidFormat];
      return EmailCheck(false, errors, email);
    }
    if !MatchesRfcPattern(email) {
      errors := errors + [NotRfc];
    }
    var domain := EmailDomain(email);
    if domain in disposable {
      errors := errors + [DisposableDomain];
    }
    c := EmailCheck(errors == [], errors, email);
    assert c == EmailChecks(f, disposable, email);
  }

  /**
   * The pattern read deterministically: exactly one '@'; before it a non-empty local part;
   * after it a domain whose text after its last '.' is two or more letters and whose text
   * before that '.' is a non-empty run of domain characters.
   */
  predicate SplitShape(s: string) {
    var parts := Explode('@', s);
    |parts| == 2 && parts[0] != [] && AllLocal(parts[0]) && DomainShape(parts[1])
  }

  predicate DomainShape(w: string) {
    var t := AfterLast(w, '.');
    '.' in w && |t| >= 2 && AllLetters(t) && DomainStem(w, t)
  }

  /** The domain text before its last '.', given the text `t` after it. */
  predicate DomainStem(w: string, t: string)
    requires |t| < |w|
  {
    var x := w[..|w| - |t| - 1];
    x != [] && AllDomain(x)
  }

  /** The regex reading and the split reading of the pattern accept the same strings. */
  lemma RfcShapeIsSplitShape(s: string)
    ensures RfcShape(s) <==> SplitShape(s)
  {
    if RfcShape(s) {
      var i, j :| 0 < i < j < |s| && i + 1 < j && j + 2 < |s| &&
        s[i] == '@' && s[j] == '.' &&
        AllLocal(s[..i]) && AllDomain(s[i + 1..j]) && AllLetters(s[j + 1..]);
      RfcShapeSplits(s, i, j);
    }
    if SplitShape(s) {
      SplitShapeMatches(s);
    }
  }

  lemma RfcShapeSplits(s: string, i: nat, j: nat)
    requires 0 < i < j < |s| && i + 1 < j && j + 2 < |s| && s[i] == '@' && s[j] == '.'
    requires AllLocal(s[..i]) && AllDomain(s[i + 1..j]) && AllLetters(s[j + 1..])
    ensures SplitShape(s)
  {
    var a, w := s[..i], s[i + 1..];
    var x, t := s[i + 1..j], s[j + 1..];
    assert w == x + ['.'] + t;
    NoAtInDomain(x, t);
    assert '@' !in a by {
      forall k | 0 <= k < |a| ensures a[k] != '@' { assert LocalChar(a[k]); }
    }
    assert s == a + ['@'] + w;
    ExplodeTwo('@', a, w);
    LastDot(x, t);
  }

  lemma NoAtInDomain(x: string, t: string)
    requires AllDomain(x) && AllLetters(t)
    ensures '@' !in x + ['.'] + t
  {
    var w := x + ['.'] + t;
    forall k | 0 <= k < |w| ensures w[k] != '@' {
      if k < |x| { assert DomainChar(x[k]); } else if k > |x| { assert Letter(t[k - |x| - 1]); }
    }
  }

  lemma LastDot(x: string, t: string)
    requires x != [] && AllDomain(x) && |t| >= 2 && AllLetters(t)
    ensures DomainShape(x + ['.'] + t)
  {
    var w := x + ['.'] + t;
    assert '.' !in t by {
      forall k | 0 <= k < |t| ensures t[k] != '.' { assert Letter(t[k]); }
    }
    assert w[|x| + 1..] == t;
    AfterLastAt(w, '.', |x|);
    assert w[..|w| - |t| - 1] == x;
  }

  lemma SplitShapeMatches(s: string)
    requires SplitShape(s)
    ensures RfcShape(s)
  {
    var parts := Explode('@', s);
    JoinTwo('@', s);
    DomainMatches(s, parts[0], parts[1]);
  }

  lemma DomainMatches(s: string, a: string, w: string)
    requires s == a + ['@'] + w && a != [] && AllLocal(a) && DomainShape(w)
    ensures RfcShape(s)
  {
    var t := AfterLast(w, '.');
    var x := w[..|w| - |t| - 1];
    StemDotTail(w);
    assert a + ['@'] + w == a + ['@'] + x + ['.'] + t;
    RfcShapeAt(s, a, x, t);
  }

  /** A text that splits into two pieces is those pieces joined by the separator. */
  lemma JoinTwo(sep: char, s: string)
    requires |Explode(sep, s)| == 2
    ensures s == Explode(sep, s)[0] + [sep] + Explode(sep, s)[1]
  {
    var parts := Explode(sep, s);
    ImplodeExplode(sep, s);
    assert parts[1..] == [parts[1]];
  }

  /** A domain is its stem, the last '.', and the text after it. */
  lemma StemDotTail(w: string)
    requires '.' in w
    ensures w == w[..|w| - |AfterLast(w, '.')| - 1] + ['.'] + AfterLast(w, '.')
  {
    var t := AfterLast(w, '.');
    var q :| 0 <= q < |w| && w[q] == '.' && t == w[q + 1..];
    assert |t| == |w| - q - 1;
    assert w == w[..q] + [w[q]] + w[q + 1..];
  }

  lemma RfcShapeAt(s: string, a: string, x: string, t: string)
    requires s == a + ['@'] + x + ['.'] + t
    requires a != [] && AllLocal(a) && x != [] && AllDomain(x) && |t| >= 2 && AllLetters(t)
    ensures RfcShape(s)
  {
    var i := |a|;
    var j := i + 1 + |x|;
    assert s[..i] == a && s[i + 1..j] == x && s[j + 1..] == t;
    assert s[i] == '@' && s[j] == '.';
  }

  /** Splitting a text with exactly one separator gives the two sides. */
  lemma ExplodeTwo(sep: char, a: string, b: string)
    requires sep !in a && sep !in b
    ensures Explode(sep, a + [sep] + b) == [a, b]
  {
    ExplodeConcat(sep, a, b);
    ExplodeFree(sep, b);
  }

  /** When position p holds the last `c`, AfterLast is the text after p. */
  lemma AfterLastAt(w: string, c: char, p: nat)
    requires p < |w| && w[p] == c && c !in w[p + 1..]
    ensures AfterLast(w, c) == w[p + 1..]
  {
    var r := AfterLast(w, c);
    var q :| 0 <= q < |w| && w[q] == c && r == w[q + 1..];
  }
}
