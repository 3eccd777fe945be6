/**
 * The Project (tenant) record: status, CORS allow-list and its matching rule, API-key
 * generation, and the `creating` hook that fills in identifiers.
 */
module Projects {
  import opened Wrappers
  import opened Text

  /** The `status` column is an enum of exactly these two values. */
  datatype ProjectStatus = Active | Inactive

  /**
   * The `allowed_origins` attribute as the code sees it after the `array` cast: null, a
   * list, or a string that still holds JSON (what a double-encoded value decodes to).
   * A JSON string is represented by its text and by what `json_decode($text, true)`
   * yields for it: a list, or `None` for anything that is not an array.
   */
  datatype Origins =
    | NoOrigins
    | OriginList(entries: seq<string>)
    | OriginJson(text: string, decoded: Option<seq<string>>)

  datatype Project = Project(
    id: nat,
    userId: nat,
    name: string,
    description: Option<string>,
    slug: string,
    status: ProjectStatus,
    publicId: string,
    apiKey: string,
    allowedOrigins: Origins,
    doubleOptIn: bool,
    welcomeEmail: bool,
    adminNotifications: bool)

  /** `isActive()`: `status === 'active'`. */
  predicate IsActive(p: Project) {
    p.status == Active
  }

  /**
   * The list `isOriginAllowed` iterates over, or `None` when it returns false before the
   * loop: a falsy attribute (null, empty list, "" or "0"), or JSON that is not a list.
   */
  function OriginEntries(o: Origins): (r: Option<seq<string>>)
    ensures o.NoOrigins? ==> r.None?
    ensures o.OriginList? ==> (r.Some? <==> o.entries != [])
    ensures r.Some? && o.OriginList? ==> r.value == o.entries
  {
    match o
    case NoOrigins => None
    case OriginList(e) => if e == [] then None else Some(e)
    case OriginJson(t, d) => if Falsy(t) then None else d
  }

  /**
   * Matching of `/^P$/` where P is `str_replace('*', '.*', preg_quote($entry, '/'))`.
   * `preg_quote` has turned every `*` into `\*`, so the replacement yields `\.*`: each
   * `*` of the entry matches a run of zero or more '.' characters, and every other
   * character of the entry matches only itself.
   */
  function StarDotsMatch(p: string, s: string): bool
    decreases |p| + |s|
  {
    if p == [] then s == []
    else if p[0] == '*' then
      StarDotsMatch(p[1..], s) || (s != [] && s[0] == '.' && StarDotsMatch(p, s[1..]))
    else s != [] && s[0] == p[0] && StarDotsMatch(p[1..], s[1..])
  }

  /** PCRE's `$` without the D modifier also matches just before one final "\n". */
  predicate PregMatchAnchored(p: string, s: string) {
    StarDotsMatch(p, s) || (s != [] && s[|s| - 1] == '\n' && StarDotsMatch(p, s[..|s| - 1]))
  }

  /**
   * One iteration of the loop: does this entry admit the (already lower-cased) origin?
   * As written, a `*` inside an entry stands for a run of dots.
   */
  predicate EntryAdmits(entry: string, origin: string) {
    var e := Lower(entry);
    e == "*" || e == origin || ('*' in e && PregMatchAnchored(e, origin))
  }

  /**
   * The pattern the loop evidently means to build, `/^P$/` where each `*` of the entry
   * became `.*` and every other character stayed a literal: a `*` matches any run of
   * characters other than "\n" (PCRE's `.`). The model's check does not use it.
   */
  function StarAnyMatch(p: string, s: string): bool
    decreases |p| + |s|
  {
    if p == [] then s == []
    else if p[0] == '*' then
      StarAnyMatch(p[1..], s) || (s != [] && s[0] != '\n' && StarAnyMatch(p, s[1..]))
    else s != [] && s[0] == p[0] && StarAnyMatch(p[1..], s[1..])
  }

  /** `/^P$/` with the intended pattern, and `$` also matching before one final "\n". */
  predicate PregMatchIntended(p: string, s: string) {
    StarAnyMatch(p, s) || (s != [] && s[|s| - 1] == '\n' && StarAnyMatch(p, s[..|s| - 1]))
  }

  /** The loop's entry test with the intended subdomain wildcard. */
  predicate EntryAdmitsIntended(entry: string, origin: string) {
    var e := Lower(entry);
    e == "*" || e == origin || ('*' in e && PregMatchIntended(e, origin))
  }

  /** Some entry of the list admits the origin. */
  predicate AllowedBy(entries: seq<string>, origin: string) {
    exists e :: e in entries && EntryAdmits(e, Lower(origin))
  }

  /** What `Project::isOriginAllowed($origin)` returns. */
  predicate OriginAllowed(p: Project, origin: string) {
    match OriginEntries(p.allowedOrigins)
    case None => false
    case Some(entries) => AllowedBy(entries, origin)
  }

  /** `Project::isOriginAllowed`: the loop over the allow-list with its early returns. */
  method IsOriginAllowed(p: Project, origin: string) returns (allowed: bool)
    ensures allowed == OriginAllowed(p, origin)
  {
    var entries := OriginEntries(p.allowedOrigins);
    if entries.None? {
      return false;
    }
    var list := entries.value;
    var normalized := Lower(origin);
    var i := 0;
    while i < |list|
      invariant 0 <= i <= |list|
      invariant forall j :: 0 <= j < i ==> !EntryAdmits(list[j], normalized)
    {
      var e := Lower(list[i]);
      if e == "*" || e == normalized {
        assert EntryAdmits(list[i], normalized) && list[i] in list;
        return true;
      }
      if '*' in e && PregMatchAnchored(e, normalized) {
        assert EntryAdmits(list[i], normalized) && list[i] in list;
        return true;
      }
      i := i + 1;
    }
    return false;
  }

  /** Matching ignores the case of the origin. */
  lemma OriginCaseIgnored(p: Project, origin: string)
    ensures OriginAllowed(p, origin) == OriginAllowed(p, Lower(origin))
  {
    LowerIdempotent(origin);
  }

  /** An entry "*" admits every origin. */
  lemma StarEntryAdmitsAll(entries: seq<string>, origin: string)
    requires "*" in entries
    ensures AllowedBy(entries, origin)
  {
    assert Lower("*") == "*";
    assert EntryAdmits("*", Lower(origin));
  }

  /** An entry equal to the origin, up to case, admits it. */
  lemma ExactEntryAdmits(entries: seq<string>, origin: string, entry: string)
    requires entry in entries && Lower(entry) == Lower(origin)
    ensures AllowedBy(entries, origin)
  {
    assert EntryAdmits(entry, Lower(origin));
  }

  /** The answer depends only on which entries are listed, not on their order or repetition. */
  lemma AllowedByOrderFree(e1: seq<string>, e2: seq<string>, origin: string)
    requires forall e :: e in e1 <==> e in e2
    ensures AllowedBy(e1, origin) == AllowedBy(e2, origin)
  {
  }

  /** An entry without `*` admits exactly the origin equal to it up to case. */
  lemma EntryWithoutStarIsExact(entry: string, origin: string)
    requires '*' !in Lower(entry)
    ensures EntryAdmits(entry, Lower(origin)) <==> Lower(entry) == Lower(origin)
  {
  }

  /** A `*` inside an entry stands for a run of dots and nothing else. */
  lemma {:induction false} StarMatchesOnlyDots(s: string)
    ensures StarDotsMatch("*", s) <==> forall i :: 0 <= i < |s| ==> s[i] == '.'
    decreases |s|
  {
    assert "*"[1..] == [];
    if s != [] {
      StarMatchesOnlyDots(s[1..]);
      assert forall i :: 1 <= i < |s| ==> s[i] == s[1..][i - 1];
    }
  }

  lemma DotPatternIsLower()
    ensures Lower("*.example.com") == "*.example.com"
  {
    LowerWithoutCapitals("*.example.com");
  }

  /** As written, `*.example.com` is not a subdomain wildcard: it does not admit a real subdomain ... */
  lemma SubdomainPatternRejectsSubdomain()
    ensures !EntryAdmits("*.example.com", "https://sub.example.com")
  {
    DotPatternIsLower();
    StarPrefixRejects("*.example.com", "https://sub.example.com");
  }

  lemma DotPatternMatchesDotDomain()
    ensures StarDotsMatch("*.example.com", ".example.com")
  {
    SelfMatch(".example.com");
    assert "*.example.com"[1..] == ".example.com";
  }

  /** ... but it does admit the origin ".example.com". */
  lemma SubdomainPatternAdmitsDotDomain()
    ensures EntryAdmits("*.example.com", ".example.com")
  {
    DotPatternIsLower();
    DotPatternMatchesDotDomain();
  }

  /** With the intended pattern, a literal entry without `*` matches exactly itself. */
  lemma {:induction false} LiteralMatchesItself(x: string, s: string)
    requires '*' !in x
    ensures StarAnyMatch(x, s) <==> s == x
    decreases |x|
  {
    if x != [] && s != [] {
      LiteralMatchesItself(x[1..], s[1..]);
      if s[0] == x[0] && s[1..] == x[1..] {
        assert s == [s[0]] + s[1..] && x == [x[0]] + x[1..];
      }
    }
  }

  /**
   * With the intended pattern, `*` followed by a literal suffix admits exactly the texts
   * that end with the suffix and have no "\n" before it.
   */
  lemma {:induction false} StarSuffixMatch(x: string, s: string)
    requires '*' !in x
    ensures StarAnyMatch("*" + x, s) <==> |x| <= |s| && s[|s| - |x|..] == x && '\n' !in s[..|s| - |x|]
    decreases |s|
  {
    var p := "*" + x;
    assert p[0] == '*' && p[1..] == x;
    LiteralMatchesItself(x, s);
    if s != [] {
      StarSuffixMatch(x, s[1..]);
      if |x| < |s| {
        assert s[1..][|s| - 1 - |x|..] == s[|s| - |x|..];
        assert s[..|s| - |x|] == [s[0]] + s[1..][..|s| - 1 - |x|];
      } else if |x| == |s| {
        assert s[|s| - |x|..] == s;
      }
    }
  }

  /** With the intended pattern, an entry `*` + suffix admits any origin ending with the suffix. */
  lemma StarEntryAdmitsSuffix(x: string, prefix: string)
    requires '*' !in x && '\n' !in prefix && Lower("*" + x) == "*" + x
    ensures EntryAdmitsIntended("*" + x, prefix + x)
  {
    var s := prefix + x;
    assert s[|s| - |x|..] == x && s[..|s| - |x|] == prefix;
    StarSuffixMatch(x, s);
    assert ("*" + x)[0] == '*';
  }

  /** With the intended pattern, `*.example.com` admits the subdomain `https://sub.example.com`. */
  lemma SubdomainPatternAdmitsSubdomain()
    ensures EntryAdmitsIntended("*" + ".example.com", "https://sub" + ".example.com")
  {
    LowerWithoutCapitals("*" + ".example.com");
    SubdomainParts();
    StarEntryAdmitsSuffix(".example.com", "https://sub");
  }

  lemma SubdomainParts()
    ensures '*' !in ".example.com" && '\n' !in "https://sub"
  {
  }

  /** A pattern `*` + literal c + ... rejects a text starting with neither '.' nor c. */
  lemma StarPrefixRejects(e: string, s: string)
    requires |e| >= 2 && e[0] == '*' && e[1] != '*' && 2 <= |s|
    requires s[0] != '.' && s[0] != e[1] && s != e && s[|s| - 1] != '\n'
    requires Lower(e) == e
    ensures !EntryAdmits(e, s)
  {
    LiteralMismatch(e[1..], s);
  }

  lemma {:induction false} LowerWithoutCapitals(s: string)
    requires forall i :: 0 <= i < |s| ==> !('A' <= s[i] <= 'Z')
    ensures Lower(s) == s
  {
  }

  /** A pattern whose first character is a literal other than the text's first character fails. */
  lemma LiteralMismatch(p: string, s: string)
    requires p != [] && s != [] && p[0] != '*' && p[0] != s[0]
    ensures !StarDotsMatch(p, s)
  {
  }

  /** A pattern without `*` matches itself. */
  lemma {:induction false} SelfMatch(p: string)
    requires '*' !in p
    ensures StarDotsMatch(p, p)
  {
    if p != [] {
      SelfMatch(p[1..]);
    }
  }

  /**
   * `Project::where('public_id', $id)->where('api_key', $key)->first()` over the table in
   * id order: the first project carrying both values.
   */
  function FindByCredentials(table: seq<Project>, publicId: string, apiKey: string): (r: Option<Project>)
    ensures r.Some? ==> r.value.publicId == publicId && r.value.apiKey == apiKey
    ensures r.Some? ==> exists i :: 0 <= i < |table| && table[i] == r.value &&
                          forall j :: 0 <= j < i ==> !(table[j].publicId == publicId && table[j].apiKey == apiKey)
    ensures r.None? <==> forall i :: 0 <= i < |table| ==> !(table[i].publicId == publicId && table[i].apiKey == apiKey)
  {
    if table == [] then None
    else if table[0].publicId == publicId && table[0].apiKey == apiKey then Some(table[0])
    else
      var r := FindByCredentials(table[1..], publicId, apiKey);
      assert forall i :: 1 <= i < |table| ==> table[i] == table[1..][i - 1];
      r
  }

  /** `Project::where('public_id', $id)->first()`. */
  function FindByPublicId(table: seq<Project>, publicId: string): (r: Option<Project>)
    ensures r.Some? ==> r.value.publicId == publicId
    ensures r.Some? ==> exists i :: 0 <= i < |table| && table[i] == r.value &&
                          forall j :: 0 <= j < i ==> table[j].publicId != publicId
    ensures r.None? <==> forall i :: 0 <= i < |table| ==> table[i].publicId != publicId
  {
    if table == [] then None
    else if table[0].publicId == publicId then Some(table[0])
    else
      var r := FindByPublicId(table[1..], publicId);
      assert forall i :: 1 <= i < |table| ==> table[i] == table[1..][i - 1];
      r
  }

  /** `$subscription->project`: the project row with this primary key, if any. */
  function FindById(table: seq<Project>, id: nat): (r: Option<Project>)
    ensures r.Some? ==> r.value.id == id && r.value in table
    ensures r.None? <==> forall i :: 0 <= i < |table| ==> table[i].id != id
  {
    if table == [] then None
    else if table[0].id == id then Some(table[0])
    else
      var r := FindById(table[1..], id);
      assert forall i :: 1 <= i < |table| ==> table[i] == table[1..][i - 1];
      r
  }

  const KeyPrefix := "nlc_"

  /**
   * `generateApiKey`: draw `"nlc_" + Str::random(56)` until the key is not stored.
   * `draws` are the successive values `Str::random(56)` returns; the loop terminates
   * because some draw yields a key that is not stored.
   */
  method GenerateApiKey(stored: set<string>, draws: seq<string>) returns (key: string)
    requires forall i :: 0 <= i < |draws| ==> |draws[i]| == 56
    requires exists i :: 0 <= i < |draws| && KeyPrefix + draws[i] !in stored
    ensures key !in stored
    ensures |key| == 60 && key[..4] == KeyPrefix
    ensures exists i :: 0 <= i < |draws| && key == KeyPrefix + draws[i] &&
                        forall j :: 0 <= j < i ==> KeyPrefix + draws[j] in stored
  {
    var n := 0;
    key := KeyPrefix + draws[0];
    while key in stored
      invariant 0 <= n < |draws| && key == KeyPrefix + draws[n]
      invariant forall j :: 0 <= j < n ==> KeyPrefix + draws[j] in stored
      invariant exists i :: n <= i < |draws| && KeyPrefix + draws[i] !in stored
      decreases |draws| - n
    {
      n := n + 1;
      key := KeyPrefix + draws[n];
    }
  }

  /** The key-generation precondition a caller must meet: a fresh draw exists. */
  predicate DrawsUsable(stored: set<string>, draws: seq<string>) {
    && (forall i :: 0 <= i < |draws| ==> |draws[i]| == 56)
    && (exists i :: 0 <= i < |draws| && KeyPrefix + draws[i] !in stored)
  }

  /**
   * The `creating` hook: `public_id` becomes a fresh ULID, `api_key` a generated key and
   * `slug` `Str::slug(name) . '-' . Str::random(6)`, each only when absent (falsy).
   * `ulid`, `slugBase` (= `Str::slug($name)`) and `suffix` are the foreign values.
   */
  method Creating(p: Project, ulid: string, stored: set<string>, draws: seq<string>,
                  slugBase: string, suffix: string) returns (r: Project)
    requires Falsy(p.apiKey) ==> DrawsUsable(stored, draws)
    ensures r.publicId == if Falsy(p.publicId) then ulid else p.publicId
    ensures !Falsy(p.apiKey) ==> r.apiKey == p.apiKey
    ensures Falsy(p.apiKey) ==> r.apiKey !in stored && |r.apiKey| == 60 && r.apiKey[..4] == KeyPrefix
    ensures r.slug == if Falsy(p.slug) then slugBase + "-" + suffix else p.slug
    ensures r == p.(publicId := r.publicId, apiKey := r.apiKey, slug := r.slug)
  {
    r := p;
    if Falsy(p.publicId) {
      r := r.(publicId := ulid);
    }
    if Falsy(p.apiKey) {
      var key := GenerateApiKey(stored, draws);
      r := r.(apiKey := key);
    }
    if Falsy(p.slug) {
      r := r.(slug := slugBase + "-" + suffix);
    }
  }
}
