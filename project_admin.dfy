/**
 * The dashboard's project administration (`ProjectController`): parsing the allow-list
 * textarea, creating a project under the per-user limit, editing it, deactivating it
 * instead of deleting it, and replacing its API key. The `projects` table is an object
 * whose row list these actions update in place.
 */
module ProjectAdmin {
  import opened Wrappers
  import opened Text
  import opened Http
  import opened Projects
  import opened Credentials

  /** `newsletter.security.max_projects_per_user` when the configuration does not set it. */
  const DefaultMaxProjects := 10
  /** `max:255` on the project name. */
  const MaxNameLength := 255
  /** `Str::random(64)` in the controller's key regeneration. */
  const RegeneratedKeyLength := 64

  // ---------------------------------------------------------------------------------
  // parseAllowedOrigins

  /** What the parser keeps of one line: its trimmed form, unless that is falsy. */
  function Kept(line: string): seq<string> {
    var t := Trim(line);
    if Falsy(t) then [] else [t]
  }

  /** The lines the parser keeps, in their order. */
  function KeptLines(lines: seq<string>): (r: seq<string>)
    ensures |r| <= |lines|
    decreases |lines|
  {
    if lines == [] then [] else KeptLines(lines[..|lines| - 1]) + Kept(lines[|lines| - 1])
  }

  /** What `parseAllowedOrigins` returns for the textarea's value (`None` for null). */
  function ParsedOrigins(origins: Option<string>): seq<string> {
    if origins.None? || Falsy(origins.value) then [] else KeptLines(Explode('\n', origins.value))
  }

  /** `parseAllowedOrigins`: split on new lines, trim each line, keep the non-empty ones. */
  method ParseAllowedOrigins(origins: Option<string>) returns (parsed: seq<string>)
    ensures parsed == ParsedOrigins(origins)
  {
    if origins.None? || Falsy(origins.value) {
      return [];
    }
    var lines := Explode('\n', origins.value);
    parsed := [];
    var i := 0;
    while i < |lines|
      invariant 0 <= i <= |lines|
      invariant parsed == KeptLines(lines[..i])
    {
      var line := Trim(lines[i]);
      if !Falsy(line) {
        parsed := parsed + [line];
      }
      assert lines[..i + 1][..i] == lines[..i];
      assert KeptLines(lines[..i + 1]) == KeptLines(lines[..i]) + Kept(lines[i]);
      i := i + 1;
    }
    assert lines[..|lines|] == lines;
  }

  // The same list in two passes, trimming then filtering, which the proofs reason about.

  function TrimEach(lines: seq<string>): (r: seq<string>)
    ensures |r| == |lines|
    decreases |lines|
  {
    if lines == [] then [] else TrimEach(lines[..|lines| - 1]) + [Trim(lines[|lines| - 1])]
  }

  function DropFalsy(ts: seq<string>): seq<string>
    decreases |ts|
  {
    if ts == [] then [] else DropFalsy(ts[..|ts| - 1]) + (if Falsy(ts[|ts| - 1]) then [] else [ts[|ts| - 1]])
  }

  lemma InitOfConcat<T>(a: seq<T>, b: seq<T>)
    requires b != []
    ensures (a + b)[..|a + b| - 1] == a + b[..|b| - 1] && (a + b)[|a + b| - 1] == b[|b| - 1]
  {
  }

  lemma InConcat<T>(a: seq<T>, b: seq<T>, x: T)
    ensures x in a + b <==> x in a || x in b
  {
  }

  lemma Assoc<T>(x: seq<T>, y: seq<T>, z: seq<T>)
    ensures (x + y) + z == x + (y + z)
  {
  }

  lemma SplitLast<T>(s: seq<T>)
    requires s != []
    ensures s == s[..|s| - 1] + [s[|s| - 1]]
  {
  }

  lemma {:induction false} KeptLinesSplit(lines: seq<string>)
    ensures KeptLines(lines) == DropFalsy(TrimEach(lines))
    decreases |lines|
  {
    if lines != [] {
      KeptLinesSplit(lines[..|lines| - 1]);
      InitOfConcat(TrimEach(lines[..|lines| - 1]), [Trim(lines[|lines| - 1])]);
    }
  }

  lemma {:induction false} TrimEachIndex(lines: seq<string>)
    ensures forall i :: 0 <= i < |lines| ==> TrimEach(lines)[i] == Trim(lines[i])
    decreases |lines|
  {
    if lines != [] {
      var init := lines[..|lines| - 1];
      TrimEachIndex(init);
      var t := TrimEach(lines);
      assert t == TrimEach(init) + [Trim(lines[|lines| - 1])];
      forall i | 0 <= i < |lines|
        ensures t[i] == Trim(lines[i])
      {
        if i < |init| {
          assert t[i] == TrimEach(init)[i] && init[i] == lines[i];
        }
      }
    }
  }

  lemma {:induction false} DropFalsyMembers(ts: seq<string>, e: string)
    ensures e in DropFalsy(ts) <==> !Falsy(e) && e in ts
    decreases |ts|
  {
    if ts != [] {
      var init := ts[..|ts| - 1];
      DropFalsyMembers(init, e);
      InConcat(DropFalsy(init), if Falsy(ts[|ts| - 1]) then [] else [ts[|ts| - 1]], e);
      SplitLast(ts);
      InConcat(init, [ts[|ts| - 1]], e);
    }
  }

  /** `e` is the trimmed form of one of `lines`. */
  predicate TrimmedLine(lines: seq<string>, e: string) {
    exists i :: 0 <= i < |lines| && e == Trim(lines[i])
  }

  /** An entry is kept exactly when it is the trimmed form of some line and is not falsy. */
  lemma KeptLinesMembers(lines: seq<string>, e: string)
    ensures e in KeptLines(lines) <==> !Falsy(e) && TrimmedLine(lines, e)
  {
    KeptLinesSplit(lines);
    DropFalsyMembers(TrimEach(lines), e);
    TrimEachIndex(lines);
    var ts := TrimEach(lines);
    if e in ts {
      var i :| 0 <= i < |ts| && ts[i] == e;
      assert e == Trim(lines[i]);
    }
    if TrimmedLine(lines, e) {
      var i :| 0 <= i < |lines| && e == Trim(lines[i]);
      assert ts[i] == e;
    }
  }

  /** The parser works line by line: the entries of two blocks of lines come in block order. */
  lemma {:induction false} KeptLinesConcat(a: seq<string>, b: seq<string>)
    ensures KeptLines(a + b) == KeptLines(a) + KeptLines(b)
    decreases |b|
  {
    if b == [] {
      assert a + b == a;
    } else {
      var b0 := b[..|b| - 1];
      InitOfConcat(a, b);
      KeptLinesConcat(a, b0);
      Assoc(KeptLines(a), KeptLines(b0), Kept(b[|b| - 1]));
    }
  }

  /** Trimming cuts characters off the ends only, so it brings in no character. */
  lemma TrimBringsNothing(s: string, c: char)
    requires c !in s
    ensures c !in Trim(s)
  {
    var l := TrimLeft(s);
    assert forall j :: 0 <= j < |l| ==> l[j] == s[|s| - |l| + j];
    var r := TrimRight(l);
    assert forall j :: 0 <= j < |r| ==> r[j] == l[j];
  }

  /** Every kept entry is trimmed, not falsy, and holds no line break. */
  lemma ParsedEntriesClean(origins: Option<string>)
    ensures forall e :: e in ParsedOrigins(origins) ==> Trimmed(e) && !Falsy(e) && '\n' !in e
  {
    if !(origins.None? || Falsy(origins.value)) {
      var lines := Explode('\n', origins.value);
      forall e | e in ParsedOrigins(origins)
        ensures Trimmed(e) && !Falsy(e) && '\n' !in e
      {
        KeptLinesMembers(lines, e);
        var i :| 0 <= i < |lines| && e == Trim(lines[i]);
        TrimBringsNothing(lines[i], '\n');
      }
    }
  }

  /** Lines that are already clean are all kept, unchanged. */
  lemma {:induction false} KeptLinesOfClean(lines: seq<string>)
    requires forall k :: 0 <= k < |lines| ==> Trimmed(lines[k]) && !Falsy(lines[k])
    ensures KeptLines(lines) == lines
    decreases |lines|
  {
    if lines != [] {
      var init := lines[..|lines| - 1];
      var last := lines[|lines| - 1];
      assert forall k :: 0 <= k < |init| ==> init[k] == lines[k];
      KeptLinesOfClean(init);
      TrimOfTrimmed(last);
      assert Kept(last) == [last];
      SplitLast(lines);
    }
  }

  /**
   * The edit form shows the stored list joined by new lines; submitting it unchanged
   * stores the same list again.
   */
  lemma EditFormRoundTrip(origins: Option<string>)
    ensures var shown := Implode('\n', ParsedOrigins(origins));
            ParsedOrigins(Some(shown)) == ParsedOrigins(origins)
  {
    var parts := ParsedOrigins(origins);
    ParsedEntriesClean(origins);
    assert forall k :: 0 <= k < |parts| ==> parts[k] in parts;
    if parts != [] {
      ExplodeImplode('\n', parts);
      KeptLinesOfClean(parts);
      JoinedNotFalsy(parts);
    }
  }

  /** Joining entries that are not falsy gives a text that is not falsy either. */
  lemma JoinedNotFalsy(parts: seq<string>)
    requires parts != [] && forall k :: 0 <= k < |parts| ==> !Falsy(parts[k])
    ensures !Falsy(Implode('\n', parts))
  {
    var shown := Implode('\n', parts);
    if |parts| == 1 {
      assert shown == parts[0];
    } else {
      assert shown == parts[0] + ['\n'] + Implode('\n', parts[1..]);
      assert |shown| > |parts[0]| >= 1 && shown[|parts[0]|] == '\n';
    }
  }

  // ---------------------------------------------------------------------------------
  // The submitted form and its validation

  /**
   * The dashboard form as the controller receives it; blank strings have already been
   * turned into null by the framework. The `required` and `nullable` rules treat an
   * absent field like a null one, so those fields use `JNull` for both. The three
   * `boolean` fields tell them apart: `None` is absent, `Some(JNull)` a blank field.
   */
  datatype ProjectForm = ProjectForm(
    name: Json,
    allowedOrigins: Json,
    doubleOptIn: Option<Json>,
    welcomeEmail: Option<Json>,
    adminNotifications: Option<Json>,
    status: Json)

  datatype FormField = NameField | OriginsField | DoubleOptInField | WelcomeEmailField | AdminNotificationsField | StatusField

  /** `required|string|max:255`. */
  predicate NameOk(v: Json) {
    v.JStr? && v.s != "" && |v.s| <= MaxNameLength
  }

  /** `nullable|string`. */
  predicate OriginsOk(v: Json) {
    v.JNull? || v.JStr?
  }

  /**
   * `boolean` without `nullable`: an absent field passes; a present one, null included,
   * must be one of true, false, 0, 1, "0", "1".
   */
  predicate BooleanOk(v: Option<Json>) {
    v.None? || v.value.JBool? || v.value == JNum(0) || v.value == JNum(1) || v.value == JStr("0") || v.value == JStr("1")
  }

  /** `required|in:active,inactive`. */
  predicate StatusOk(v: Json) {
    v == JStr("active") || v == JStr("inactive")
  }

  /** The fields the validator rejects; the status rule applies to the edit form only. */
  function FormErrors(form: ProjectForm, withStatus: bool): (e: set<FormField>)
    ensures NameField in e <==> !NameOk(form.name)
    ensures OriginsField in e <==> !OriginsOk(form.allowedOrigins)
    ensures DoubleOptInField in e <==> !BooleanOk(form.doubleOptIn)
    ensures WelcomeEmailField in e <==> !BooleanOk(form.welcomeEmail)
    ensures AdminNotificationsField in e <==> !BooleanOk(form.adminNotifications)
    ensures StatusField in e <==> withStatus && !StatusOk(form.status)
  {
    (if NameOk(form.name) then {} else {NameField})
    + (if OriginsOk(form.allowedOrigins) then {} else {OriginsField})
    + (if BooleanOk(form.doubleOptIn) then {} else {DoubleOptInField})
    + (if BooleanOk(form.welcomeEmail) then {} else {WelcomeEmailField})
    + (if BooleanOk(form.adminNotifications) then {} else {AdminNotificationsField})
    + (if !withStatus || StatusOk(form.status) then {} else {StatusField})
  }

  /** A blank `boolean` field is a present null, which the rule refuses: the form goes back with errors. */
  lemma BlankBooleanRejected(form: ProjectForm, withStatus: bool)
    requires form.doubleOptIn == Some(JNull) || form.welcomeEmail == Some(JNull) || form.adminNotifications == Some(JNull)
    ensures FormErrors(form, withStatus) != {}
  {
  }

  /** `$request->boolean($key)` on a value the `boolean` rule let through (absent is false). */
  predicate Flag(v: Option<Json>) {
    v == Some(JBool(true)) || v == Some(JNum(1)) || v == Some(JStr("1"))
  }

  /** `$request->input('allowed_origins')` on a value the `nullable|string` rule let through. */
  function OriginsText(v: Json): Option<string> {
    if v.JStr? then Some(v.s) else None
  }

  /** The allow-list the form stores: the parsed lines, kept as a list by the `array` cast. */
  function FormOrigins(form: ProjectForm): Origins {
    OriginList(ParsedOrigins(OriginsText(form.allowedOrigins)))
  }

  /**
   * `$project->update([...])`: the six fields the edit form writes. The identity, the
   * owner, the description and the three unique columns stay as they were.
   */
  function Edited(p: Project, form: ProjectForm): (q: Project)
    requires FormErrors(form, true) == {}
    ensures q.id == p.id && q.userId == p.userId && q.description == p.description
    ensures q.slug == p.slug && q.publicId == p.publicId && q.apiKey == p.apiKey
    ensures q.status == Active <==> form.status == JStr("active")
    ensures q.name == form.name.s && 0 < |q.name| <= MaxNameLength
  {
    p.(name := form.name.s, allowedOrigins := FormOrigins(form),
       doubleOptIn := Flag(form.doubleOptIn), welcomeEmail := Flag(form.welcomeEmail),
       adminNotifications := Flag(form.adminNotifications),
       status := if form.status == JStr("active") then Active else Inactive)
  }

  /** The row `Project::create` inserts, before the `creating` hook fills in its identifiers. */
  function Draft(id: nat, userId: nat, form: ProjectForm): Project
    requires FormErrors(form, false) == {}
  {
    Project(id, userId, form.name.s, None, "", Active, "", "", FormOrigins(form),
            Flag(form.doubleOptIn), Flag(form.welcomeEmail), Flag(form.adminNotifications))
  }

  // ---------------------------------------------------------------------------------
  // The projects table

  /** What an action answers: the redirect with its message, or back with errors. */
  datatype AdminOutcome =
    | LimitReached(max: nat)
    | Invalid(fields: set<FormField>)
    | Failed
    | Created(id: nat)
    | Updated
    | Deactivated
    | KeyRegenerated

  /** `$user->projects()->count()`: the rows the user owns, whatever their status. */
  function Owned(rows: seq<Project>, userId: nat): (n: nat)
    ensures n <= |rows|
    decreases |rows|
  {
    if rows == [] then 0
    else Owned(rows[..|rows| - 1], userId) + (if rows[|rows| - 1].userId == userId then 1 else 0)
  }

  function ApiKeys(rows: seq<Project>): set<string> {
    set i | 0 <= i < |rows| :: rows[i].apiKey
  }

  predicate PublicIdTaken(rows: seq<Project>, publicId: string) {
    exists i :: 0 <= i < |rows| && rows[i].publicId == publicId
  }

  predicate SlugTaken(rows: seq<Project>, slug: string) {
    exists i :: 0 <= i < |rows| && rows[i].slug == slug
  }

  /** Another row than `k` already holds `key`. */
  predicate KeyTakenByOther(rows: seq<Project>, k: nat, key: string) {
    exists i :: 0 <= i < |rows| && i != k && rows[i].apiKey == key
  }

  /**
   * Auto-increment ids in insertion order, and the unique indexes on `public_id`,
   * `api_key` and `slug`.
   */
  predicate TableValid(rows: seq<Project>) {
    && (forall i :: 0 <= i < |rows| ==> rows[i].id == i + 1)
    && (forall i, j :: 0 <= i < j < |rows| ==> rows[i].publicId != rows[j].publicId)
    && (forall i, j :: 0 <= i < j < |rows| ==> rows[i].apiKey != rows[j].apiKey)
    && (forall i, j :: 0 <= i < j < |rows| ==> rows[i].slug != rows[j].slug)
  }

  /** A new row counts for its owner only. */
  lemma OwnedAppend(rows: seq<Project>, p: Project, userId: nat)
    ensures Owned(rows + [p], userId) == Owned(rows, userId) + if p.userId == userId then 1 else 0
  {
    assert (rows + [p])[..|rows + [p]| - 1] == rows;
  }

  class ProjectTable {
    var rows: seq<Project>

    predicate Valid()
      reads this
    {
      TableValid(rows)
    }

    constructor ()
      ensures rows == [] && Valid()
    {
      rows := [];
    }

    /**
     * `store`: refused at the user's project limit before any validation; then the form
     * is validated; then, in a transaction, the project is created with the `creating`
     * hook's identifiers. `ulid`, `draws`, `slugBase` and `suffix` are what the ULID
     * generator, `Str::random(56)`, `Str::slug($name)` and `Str::random(6)` return;
     * `fault` is a database failure, and a duplicate public id or slug fails the insert.
     */
    method Store(userId: nat, form: ProjectForm, maxProjects: nat, ulid: string, draws: seq<string>,
                 slugBase: string, suffix: string, fault: bool) returns (outcome: AdminOutcome)
      requires Valid() && DrawsUsable(ApiKeys(rows), draws)
      modifies this
      ensures Valid()
      ensures Owned(old(rows), userId) >= maxProjects ==> outcome == LimitReached(maxProjects)
      ensures Owned(old(rows), userId) < maxProjects && FormErrors(form, false) != {} ==>
                outcome == Invalid(FormErrors(form, false))
      ensures outcome.Created? <==>
                Owned(old(rows), userId) < maxProjects && FormErrors(form, false) == {} && !fault &&
                !PublicIdTaken(old(rows), ulid) && !SlugTaken(old(rows), slugBase + "-" + suffix)
      ensures outcome.LimitReached? || outcome.Invalid? || outcome.Created? || outcome == Failed
      ensures !outcome.Created? ==> rows == old(rows)
      ensures outcome.Created? ==>
                && outcome.id == |old(rows)| + 1 && |rows| == |old(rows)| + 1 && rows[..|old(rows)|] == old(rows)
                && var p := rows[|old(rows)|];
                   && p == Draft(outcome.id, userId, form).(publicId := ulid, apiKey := p.apiKey,
                                                           slug := slugBase + "-" + suffix)
                   && p.apiKey !in ApiKeys(old(rows)) && |p.apiKey| == 60 && p.apiKey[..4] == KeyPrefix
    {
      if Owned(rows, userId) >= maxProjects {
        return LimitReached(maxProjects);
      }
      var errors := FormErrors(form, false);
      if errors != {} {
        return Invalid(errors);
      }
      var draft := Draft(|rows| + 1, userId, form);
      var p := Creating(draft, ulid, ApiKeys(rows), draws, slugBase, suffix);
      if fault || PublicIdTaken(rows, p.publicId) || SlugTaken(rows, p.slug) {
        return Failed;
      }
      AppendValid(rows, p);
      rows := rows + [p];
      outcome := Created(p.id);
    }

    /**
     * `update`: on a valid form the six fields are written; a validation failure or a
     * failing save leaves the row as it was.
     */
    method Update(k: nat, form: ProjectForm, fault: bool) returns (outcome: AdminOutcome)
      requires Valid() && k < |rows|
      modifies this
      ensures Valid()
      ensures FormErrors(form, true) != {} ==> outcome == Invalid(FormErrors(form, true)) && rows == old(rows)
      ensures FormErrors(form, true) == {} && fault ==> outcome == Failed && rows == old(rows)
      ensures FormErrors(form, true) == {} && !fault ==>
                outcome == Updated && rows == old(rows)[k := Edited(old(rows)[k], form)]
    {
      var errors := FormErrors(form, true);
      if errors != {} {
        return Invalid(errors);
      }
      if fault {
        return Failed;
      }
      RewriteValid(rows, k, Edited(rows[k], form));
      rows := rows[k := Edited(rows[k], form)];
      outcome := Updated;
    }

    /** `destroy`: the row is kept and only its status becomes inactive. */
    method Destroy(k: nat, fault: bool) returns (outcome: AdminOutcome)
      requires Valid() && k < |rows|
      modifies this
      ensures Valid() && |rows| == |old(rows)|
      ensures fault ==> outcome == Failed && rows == old(rows)
      ensures !fault ==> outcome == Deactivated && rows == old(rows)[k := old(rows)[k].(status := Inactive)]
    {
      if fault {
        return Failed;
      }
      RewriteValid(rows, k, rows[k].(status := Inactive));
      rows := rows[k := rows[k].(status := Inactive)];
      outcome := Deactivated;
    }

    /**
     * The controller's `regenerateApiKey`: `draw` (what `Str::random(64)` returns) becomes
     * the key; a key another project holds violates the unique index and the save fails.
     */
    method RegenerateApiKey(k: nat, draw: string, fault: bool) returns (outcome: AdminOutcome)
      requires Valid() && k < |rows| && |draw| == RegeneratedKeyLength
      modifies this
      ensures Valid()
      ensures outcome == KeyRegenerated <==> !fault && !KeyTakenByOther(old(rows), k, draw)
      ensures outcome == KeyRegenerated ==> rows == old(rows)[k := old(rows)[k].(apiKey := draw)]
      ensures outcome != KeyRegenerated ==> outcome == Failed && rows == old(rows)
    {
      if fault || KeyTakenByOther(rows, k, draw) {
        return Failed;
      }
      RewriteValid(rows, k, rows[k].(apiKey := draw));
      rows := rows[k := rows[k].(apiKey := draw)];
      outcome := KeyRegenerated;
    }

    /**
     * The model's `Project::regenerateApiKey`: a key from `generateApiKey`, which no row
     * holds, is saved and returned.
     */
    method RegenerateKey(k: nat, draws: seq<string>) returns (key: string)
      requires Valid() && k < |rows| && DrawsUsable(ApiKeys(rows), draws)
      modifies this
      ensures Valid()
      ensures key !in ApiKeys(old(rows)) && |key| == 60 && key[..4] == KeyPrefix
      ensures rows == old(rows)[k := old(rows)[k].(apiKey := key)]
    {
      key := GenerateApiKey(ApiKeys(rows), draws);
      assert !KeyTakenByOther(rows, k, key);
      RewriteValid(rows, k, rows[k].(apiKey := key));
      rows := rows[k := rows[k].(apiKey := key)];
    }
  }

  /** Appending a row with the next id and fresh unique columns keeps the table valid. */
  lemma AppendValid(rows: seq<Project>, p: Project)
    requires TableValid(rows) && p.id == |rows| + 1
    requires !PublicIdTaken(rows, p.publicId) && !SlugTaken(rows, p.slug) && p.apiKey !in ApiKeys(rows)
    ensures TableValid(rows + [p])
  {
    var t := rows + [p];
    forall i, j | 0 <= i < j < |t|
      ensures t[i].publicId != t[j].publicId && t[i].apiKey != t[j].apiKey && t[i].slug != t[j].slug
    {
      if j == |rows| {
        assert t[i] == rows[i];
        assert rows[i].apiKey in ApiKeys(rows);
      }
    }
  }

  /** Rewriting a row with its id and public id and slug kept, and a key no other row holds. */
  lemma RewriteValid(rows: seq<Project>, k: nat, q: Project)
    requires TableValid(rows) && k < |rows|
    requires q.id == rows[k].id && q.publicId == rows[k].publicId && q.slug == rows[k].slug
    requires !KeyTakenByOther(rows, k, q.apiKey)
    ensures TableValid(rows[k := q])
  {
  }

  // ---------------------------------------------------------------------------------
  // What the administration actions mean for the API's credential check

  /**
   * With unique public ids, the credential lookup finds row `k` exactly when the request
   * carries row `k`'s public id and key.
   */
  lemma {:induction false} LookupUnique(rows: seq<Project>, k: nat, publicId: string, apiKey: string)
    requires TableValid(rows) && k < |rows| && publicId == rows[k].publicId
    ensures FindByCredentials(rows, publicId, apiKey) == if apiKey == rows[k].apiKey then Some(rows[k]) else None
  {
    var r := FindByCredentials(rows, publicId, apiKey);
    if r.Some? {
      var i :| 0 <= i < |rows| && rows[i] == r.value &&
               forall j :: 0 <= j < i ==> !(rows[j].publicId == publicId && rows[j].apiKey == apiKey);
      assert i == k;
    } else {
      assert !(rows[k].publicId == publicId && rows[k].apiKey == apiKey);
    }
  }

  /** A request naming a row's credentials, with both headers truthy. */
  predicate Presents(r: Request, publicId: string, apiKey: string) {
    Header(r, "x-project-id") == Some(publicId) && Header(r, "x-api-key") == Some(apiKey)
    && !Falsy(publicId) && !Falsy(apiKey)
  }

  /** After `destroy`, the project's own credentials are answered 403 "Project suspended". */
  lemma DeactivatedProjectSuspended(rows: seq<Project>, k: nat, r: Request)
    requires TableValid(rows) && k < |rows|
    requires !IsOptions(r) && Presents(r, rows[k].publicId, rows[k].apiKey)
    ensures var after := rows[k := rows[k].(status := Inactive)];
            Authenticate(after, r) == Denied(Reply(403, Suspended), Some(rows[k].id))
  {
    var after := rows[k := rows[k].(status := Inactive)];
    LookupUnique(after, k, rows[k].publicId, rows[k].apiKey);
  }

  /** After a key change, the old key is answered 401 "Invalid credentials" ... */
  lemma ReplacedKeyRejected(rows: seq<Project>, k: nat, key: string, r: Request)
    requires TableValid(rows) && k < |rows| && key != rows[k].apiKey
    requires !KeyTakenByOther(rows, k, key)
    requires !IsOptions(r) && Presents(r, rows[k].publicId, rows[k].apiKey)
    ensures Authenticate(rows[k := rows[k].(apiKey := key)], r) == Denied(Reply(401, InvalidCredentials), None)
  {
    var after := rows[k := rows[k].(apiKey := key)];
    LookupUnique(after, k, rows[k].publicId, rows[k].apiKey);
  }

  /** ... and the new key admits the project while it is active. */
  lemma NewKeyAdmitted(rows: seq<Project>, k: nat, key: string, r: Request)
    requires TableValid(rows) && k < |rows| && IsActive(rows[k])
    requires !KeyTakenByOther(rows, k, key)
    requires !IsOptions(r) && Presents(r, rows[k].publicId, key)
    ensures Authenticate(rows[k := rows[k].(apiKey := key)], r) == Admitted(rows[k].(apiKey := key))
  {
    var after := rows[k := rows[k].(apiKey := key)];
    LookupUnique(after, k, rows[k].publicId, key);
  }

  /** `store` never takes a user past the limit. */
  lemma StoreKeepsLimit(rows: seq<Project>, p: Project, userId: nat, maxProjects: nat)
    requires Owned(rows, userId) < maxProjects
    ensures Owned(rows + [p], userId) <= maxProjects
  {
    OwnedAppend(rows, p, userId);
  }
}
