/**
 * The subscription lifecycle as functions on the datastore: the `subscriptions` table as
 * a map from (project id, normalised email) to its row, the primary-key index, the next
 * id, and the queue of dispatched jobs. Each handler is the new datastore together with
 * the reply. A transaction that rolls back leaves the datastore, queue included, as it
 * was. The `Store.Datastore` class performs these changes in place.
 */
module Lifecycle {
  import opened Wrappers
  import opened Text
  import opened Http
  import opened Foreign
  import opened Projects
  import opened Subscriptions
  import opened Jobs

  /** The unique index `(project_id, email)`. */
  datatype Key = Key(projectId: nat, email: string)

  datatype Db = Db(rows: map<Key, Subscription>, ids: map<nat, Key>, nextId: nat, queue: seq<Job>)

  /** A stored row sits under its own key, in normal form, with a consistent id entry. */
  predicate RowFits(db: Db, k: Key)
    requires k in db.rows
  {
    var s := db.rows[k];
    && s.projectId == k.projectId
    && s.email == k.email
    && Normal(k.email)
    && MetaShaped(s.meta)
    && (s.status == Subscribed ==> s.confirmedAt.Some?)
    && s.id in db.ids && db.ids[s.id] == k
  }

  /**
   * The datastore invariant: every row fits its key, the id index points back at rows
   * below `nextId`, and every queued job names an existing row.
   */
  predicate ValidDb(db: Db) {
    RowsFit(db) && IdsPointBack(db) && QueueKnown(db)
  }

  predicate RowsFit(db: Db) {
    forall k :: k in db.rows ==> RowFits(db, k)
  }

  predicate IdsPointBack(db: Db) {
    forall i :: i in db.ids ==> i < db.nextId && db.ids[i] in db.rows && db.rows[db.ids[i]].id == i
  }

  predicate QueueKnown(db: Db) {
    forall n :: 0 <= n < |db.queue| ==> db.queue[n].subscriptionId in db.ids
  }

  datatype Effect = Effect(db: Db, reply: Reply)

  // ---------------------------------------------------------------------------------
  // Request validation (Laravel rules; input is what the framework's input middleware left)

  /** `required|email|max:255` */
  predicate EmailFieldOk(f: Oracles, v: Json) {
    v.JStr? && !Blank(v.s) && f.emailRule(v.s) && |v.s| <= 255
  }

  /** `nullable|url|max:500` */
  predicate UrlFieldOk(f: Oracles, v: Json) {
    v.JNull? || (v.JStr? && f.urlRule(v.s) && |v.s| <= 500)
  }

  /** `nullable|array` */
  predicate ArrayFieldOk(v: Json) {
    v.JNull? || v.JObject? || v.JList?
  }

  /** `nullable|string|max:500` */
  predicate TextFieldOk(v: Json) {
    v.JNull? || (v.JStr? && |v.s| <= 500)
  }

  /** The fields `SubscriptionController::store`'s validator rejects. */
  function SubscribeRuleErrors(f: Oracles, r: Request): (e: set<Field>)
    ensures EmailField in e <==> !EmailFieldOk(f, Input(r, "email"))
    ensures SourceUrlField in e <==> !UrlFieldOk(f, Input(r, "source_url"))
    ensures ReferrerField in e <==> !UrlFieldOk(f, Input(r, "referrer"))
    ensures MetaField in e <==> !ArrayFieldOk(Input(r, "meta"))
    ensures ReasonField !in e
  {
    (if EmailFieldOk(f, Input(r, "email")) then {} else {EmailField}) +
    (if UrlFieldOk(f, Input(r, "source_url")) then {} else {SourceUrlField}) +
    (if UrlFieldOk(f, Input(r, "referrer")) then {} else {ReferrerField}) +
    (if ArrayFieldOk(Input(r, "meta")) then {} else {MetaField})
  }

  /** The fields `UnsubscribeController::store`'s validator rejects. */
  function UnsubscribeRuleErrors(f: Oracles, r: Request): (e: set<Field>)
    ensures EmailField in e <==> !EmailFieldOk(f, Input(r, "email"))
    ensures ReasonField in e <==> !TextFieldOk(Input(r, "reason"))
    ensures e <= {EmailField, ReasonField}
  {
    (if EmailFieldOk(f, Input(r, "email")) then {} else {EmailField}) +
    (if TextFieldOk(Input(r, "reason")) then {} else {ReasonField})
  }

  // ---------------------------------------------------------------------------------
  // Messages

  const ValidationFailed := "Validation failed"
  const ConfirmPrompt := "Please check your email to confirm your subscription."
  const Welcome := "You are successfully subscribed! \U{1F389}"
  const AlreadySubscribed := "You are already subscribed!"
  const Resubscribed := "You have been resubscribed successfully!"
  const Undeliverable := "This email address has been marked as undeliverable."
  const Unexpected := "An unexpected error occurred. Please try again."
  const Processed := "Unsubscribe request processed"

  function Rejected(status: int, message: string, errors: Errors): Reply {
    Reply(status, Envelope(false, message, None, Some(errors)))
  }

  /** The `data` object of a subscribe reply. */
  function DataOf(s: Subscription, requiresConfirmation: bool): SubscriptionData {
    SubscriptionData(s.id, s.email, StatusName(s.status), requiresConfirmation)
  }

  /** `getSuccessMessage` (its default branch is unreachable: the status is pending or subscribed). */
  function SuccessMessage(status: Status): string {
    if status == Pending then ConfirmPrompt else Welcome
  }

  // ---------------------------------------------------------------------------------
  // Subscribe (`SubscriptionController::store`)

  /** `$request->input('referrer') ?: $request->header('Referer')` */
  function ReferrerOf(r: Request): Option<string> {
    var v := Input(r, "referrer");
    if v.JStr? && !Falsy(v.s) then Some(v.s) else Header(r, "referer")
  }

  /** `$request->input('source_url')` */
  function SourceUrlOf(r: Request): Option<string> {
    var v := Input(r, "source_url");
    if v.JStr? then Some(v.s) else None
  }

  /** `queueEmails`: confirmation for a pending row, else welcome by flag; admin by flag. */
  function QueueEmails(s: Subscription, project: Project): (jobs: seq<Job>)
    ensures ConfirmationJob(s.id) in jobs <==> s.status == Pending
    ensures WelcomeJob(s.id) in jobs <==> s.status != Pending && project.welcomeEmail
    ensures AdminJob(s.id) in jobs <==> project.adminNotifications
    ensures forall n :: 0 <= n < |jobs| ==> jobs[n].subscriptionId == s.id
  {
    (if s.status == Pending then [ConfirmationJob(s.id)]
     else if project.welcomeEmail then [WelcomeJob(s.id)] else []) +
    (if project.adminNotifications then [AdminJob(s.id)] else [])
  }

  /** The row `createNewSubscription` creates, after the `creating` hook. */
  function NewRow(db: Db, key: Key, project: Project, r: Request, now: Time): Subscription {
    var status := if project.doubleOptIn then Pending else Subscribed;
    Subscriptions.Creating(Subscription(db.nextId, project.id, key.email, status, Some(r.ip), UserAgent(r),
                          ReferrerOf(r), SourceUrlOf(r), Input(r, "meta"),
                          if status == Subscribed then Some(now) else None))
  }

  function CreateSubscription(db: Db, key: Key, project: Project, r: Request, now: Time): Effect {
    var s := NewRow(db, key, project, r, now);
    var db1 := Db(db.rows[key := s], db.ids[s.id := key], db.nextId + 1, db.queue + QueueEmails(s, project));
    Effect(db1, Reply(200, Envelope(true, SuccessMessage(s.status), Some(DataOf(s, s.status == Pending)), None)))
  }

  /** The `update([...])` of tracking fields after a resubscribe: meta is replaced, not merged. */
  function Retrack(s: Subscription, r: Request, now: Time): (t: Subscription)
    ensures t.email == NormalizeEmail(s.email) || t.email == s.email
    ensures Normal(s.email) ==> t.email == s.email
    ensures t == s.(ip := Some(r.ip), userAgent := UserAgent(r), referrer := ReferrerOf(r),
                    sourceUrl := SourceUrlOf(r), meta := Input(r, "meta"), email := t.email)
  {
    Save(s, s.(ip := Some(r.ip), userAgent := UserAgent(r), referrer := ReferrerOf(r),
               sourceUrl := SourceUrlOf(r), meta := Input(r, "meta")), now)
  }

  /** `handleExistingSubscription`. */
  function ExistingSubscription(db: Db, key: Key, project: Project, r: Request, now: Time): Effect
    requires key in db.rows
  {
    var s := db.rows[key];
    match s.status
    case Unsubscribed =>
      var s2 := Retrack(Subscribe(s, now), r, now);
      var jobs := if project.welcomeEmail then [WelcomeJob(s.id)] else [];
      Effect(db.(rows := db.rows[key := s2], queue := db.queue + jobs),
             Reply(200, Envelope(true, Resubscribed, Some(DataOf(s2, false)), None)))
    case Pending =>
      Effect(db, Reply(200, Envelope(true, ConfirmPrompt, Some(DataOf(s, true)), None)))
    case Subscribed =>
      Effect(db, Reply(200, Envelope(true, AlreadySubscribed, Some(DataOf(s, false)), None)))
    case Bounced =>
      Effect(db, Rejected(422, Undeliverable, FieldMessages("email", [Undeliverable])))
  }

  /**
   * `SubscriptionController::store` for the attached `project`; `fault` is an exception
   * somewhere inside the transaction.
   */
  function SubscribeSpec(f: Oracles, disposable: seq<string>, db: Db, project: Project,
                         r: Request, now: Time, fault: bool): Effect
  {
    var errs := SubscribeRuleErrors(f, r);
    if errs != {} then Effect(db, Rejected(422, ValidationFailed, RuleErrors(errs)))
    else
      AdmitSubscription(db, project, r, now, fault, EmailVerdict(f, disposable, Input(r, "email").s))
  }

  /** The subscribe handler after the rule check, given `validateEmail`'s verdict. */
  function AdmitSubscription(db: Db, project: Project, r: Request, now: Time, fault: bool, check: EmailCheck): Effect
  {
    if !check.valid then
      Effect(db, Rejected(422, Join(", ", check.errors), FieldMessages("email", check.errors)))
    else if fault then Effect(db, Reply(500, Envelope(false, Unexpected, None, None)))
    else
      var key := Key(project.id, check.email);
      if key in db.rows then ExistingSubscription(db, key, project, r, now)
      else CreateSubscription(db, key, project, r, now)
  }

  // ---------------------------------------------------------------------------------
  // Unsubscribe, JSON (`UnsubscribeController::store`)

  const ProcessedReply := Reply(200, Envelope(true, Processed, None, None))

  function UnsubscribeMeta(r: Request, now: Time): map<string, Json> {
    map["unsubscribe_reason" := Input(r, "reason"), "unsubscribed_at" := JTime(now),
        "unsubscribe_ip" := JStr(r.ip), "unsubscribe_user_agent" := OptText(UserAgent(r))]
  }

  /** `unsubscribe()` then `update(['meta' => $meta])` with the given new meta keys. */
  function UnsubscribeWithMeta(s: Subscription, kvs: map<string, Json>, now: Time): (t: Subscription)
    ensures t.email == NormalizeEmail(s.email) || t.email == s.email
    ensures Normal(s.email) ==> t.email == s.email
    ensures t == s.(status := Status.Unsubscribed, meta := MergeMeta(s.meta, kvs), email := t.email)
  {
    var s1 := Unsubscribe(s, now);
    var m := MergeMeta(s1.meta, kvs);
    WithMeta(s1, m, now)
  }

  function UnsubscribeSpec(f: Oracles, db: Db, project: Project, r: Request, now: Time, fault: bool): Effect {
    var errs := UnsubscribeRuleErrors(f, r);
    if errs != {} then Effect(db, Rejected(422, ValidationFailed, RuleErrors(errs)))
    else if fault then Effect(db, ProcessedReply)
    else
      UnsubscribeRowEffect(db, Key(project.id, NormalizeEmail(Input(r, "email").s)), project, r, now)
  }

  /** The unsubscribe transaction on the row under `key`, when nothing throws. */
  function UnsubscribeRowEffect(db: Db, key: Key, project: Project, r: Request, now: Time): Effect {
    if key in db.rows && db.rows[key].status != Status.Unsubscribed then
      var s := db.rows[key];
      var jobs := if project.adminNotifications then [AdminJob(s.id)] else [];
      Effect(db.(rows := db.rows[key := UnsubscribeWithMeta(s, UnsubscribeMeta(r, now), now)],
                 queue := db.queue + jobs), ProcessedReply)
    else Effect(db, ProcessedReply)
  }

  // ---------------------------------------------------------------------------------
  // Unsubscribe via link (`UnsubscribeController::unsubscribeViaUrl`)

  const InvalidUnsubscribe := "errors.invalid-unsubscribe"
  const UnsubscribeSuccess := "unsubscribe.success"

  /** `required|string` after the framework turned blank strings into null. */
  predicate RequiredString(v: Json) {
    v.JStr? && !Blank(v.s)
  }

  function ViaLinkMeta(r: Request, now: Time): map<string, Json> {
    map["unsubscribed_via" := JStr("email_link"), "unsubscribed_at" := JTime(now),
        "unsubscribe_ip" := JStr(r.ip), "unsubscribe_user_agent" := OptText(UserAgent(r))]
  }

  function SuccessPage(project: Option<nat>): Reply {
    Reply(200, Page(UnsubscribeSuccess, "", project))
  }

  /** Whether the link's two parameters pass `required|string` and `required|email`. */
  predicate LinkValid(f: Oracles, r: Request) {
    RequiredString(Input(r, "project")) &&
    Input(r, "email").JStr? && !Blank(Input(r, "email").s) && f.emailRule(Input(r, "email").s)
  }

  /** `Project::where('public_id', ...)->first()` for the link's project parameter. */
  function LinkProject(projects: seq<Project>, r: Request): Option<Project> {
    if Input(r, "project").JStr? then FindByPublicId(projects, Input(r, "project").s) else None
  }

  /** The row a link names under project `p`. */
  function LinkKey(p: Project, r: Request): Key {
    Key(p.id, NormalizeEmail(if Input(r, "email").JStr? then Input(r, "email").s else ""))
  }

  /**
   * The link handler has no transaction: `crash == Some(n)` means an exception after `n`
   * of its database operations completed (project lookup, row lookup, status write, meta
   * write, job insert), and what was written by then stays written.
   */
  function UrlUnsubscribeSpec(f: Oracles, db: Db, projects: seq<Project>, r: Request, now: Time,
                              crash: Option<nat>): Effect
  {
    if !LinkValid(f, r) then Effect(db, Reply(400, Page(InvalidUnsubscribe, "", None)))
    else if crash == Some(0) then Effect(db, SuccessPage(None))
    else
      var found := LinkProject(projects, r);
      if found.None? || !IsActive(found.value) then Effect(db, Reply(404, Page(InvalidUnsubscribe, "", None)))
      else if crash == Some(1) then Effect(db, SuccessPage(None))
      else LinkUnsubscribe(db, found.value, LinkKey(found.value, r), r, now, crash)
  }

  /** The link handler once the project is found and active and the row lookup is done. */
  function LinkUnsubscribe(db: Db, p: Project, key: Key, r: Request, now: Time, crash: Option<nat>): Effect {
    if key !in db.rows || db.rows[key].status == Status.Unsubscribed then Effect(db, SuccessPage(Some(p.id)))
    else LinkWrites(db, p, key, r, now, crash)
  }

  /** The link handler's writes to a row that is not yet unsubscribed. */
  function LinkWrites(db: Db, p: Project, key: Key, r: Request, now: Time, crash: Option<nat>): Effect
    requires key in db.rows
  {
      var s := db.rows[key];
      var s1 := Unsubscribe(s, now);
      var s2 := UnsubscribeWithMeta(s, ViaLinkMeta(r, now), now);
      if crash == Some(2) then Effect(db, SuccessPage(None))
      else if crash == Some(3) then Effect(db.(rows := db.rows[key := s1]), SuccessPage(None))
      else if crash == Some(4) && p.adminNotifications then Effect(db.(rows := db.rows[key := s2]), SuccessPage(None))
      else
        var jobs := if p.adminNotifications then [AdminJob(s.id)] else [];
        Effect(db.(rows := db.rows[key := s2], queue := db.queue + jobs), SuccessPage(Some(p.id)))
  }

  // ---------------------------------------------------------------------------------
  // Confirmation link (`ConfirmSubscriptionController::__invoke`) and resubscribe

  const InvalidConfirmation := "errors.invalid-confirmation"
  const ConfirmationError := "errors.confirmation-error"

  /** The key of the row whose primary key is `id`, if there is one. */
  function KeyOf(db: Db, id: nat): (k: Option<Key>)
    ensures k.Some? <==> id in db.ids && db.ids[id] in db.rows
    ensures k.Some? ==> k.value in db.rows && k == Some(db.ids[id])
  {
    if id in db.ids && db.ids[id] in db.rows then Some(db.ids[id]) else None
  }

  /** The primary key `Subscription::find($id)` is given: an integer, or a string of digits. */
  function RequestedId(v: Json): Option<nat> {
    if v.JNum? && v.n >= 0 then Some(v.n as nat)
    else if v.JStr? && AllDigits(v.s) then Some(DigitsValue(v.s)) else None
  }

  /** The row a confirmation link names, if it exists. */
  function ConfirmTarget(db: Db, requested: Json): (k: Option<Key>)
    ensures k.Some? ==> k.value in db.rows
  {
    var id := RequestedId(requested);
    if id.Some? then KeyOf(db, id.value) else None
  }

  function ConfirmMeta(r: Request, now: Time): map<string, Json> {
    map["confirmed_at" := JTime(now), "confirmation_ip" := JStr(r.ip),
        "confirmation_user_agent" := OptText(UserAgent(r))]
  }

  function ResubscribeMeta(r: Request, now: Time): map<string, Json> {
    map["resubscribed_at" := JTime(now), "resubscribe_ip" := JStr(r.ip),
        "resubscribe_user_agent" := OptText(UserAgent(r))]
  }

  /** `subscribe()` then the meta merge the confirm and resubscribe handlers do. */
  function SubscribeWithMeta(s: Subscription, kvs: map<string, Json>, now: Time): (t: Subscription)
    ensures t.email == NormalizeEmail(s.email) || t.email == s.email
    ensures Normal(s.email) ==> t.email == s.email
    ensures t == s.(status := Subscribed, confirmedAt := Some(now), meta := MergeMeta(s.meta, kvs), email := t.email)
  {
    var s1 := Subscribe(s, now);
    var m := MergeMeta(s1.meta, kvs);
    WithMeta(s1, m, now)
  }

  /** The welcome and admin jobs both confirm and resubscribe dispatch, by the project's flags. */
  function FollowUps(id: nat, p: Project): seq<Job> {
    (if p.welcomeEmail then [WelcomeJob(id)] else []) + (if p.adminNotifications then [AdminJob(id)] else [])
  }

  function ConfirmSpec(db: Db, projects: seq<Project>, r: Request, now: Time, fault: bool): Effect {
    var requested := Input(r, "subscription");
    if !JsonTruthy(requested) then Effect(db, Reply(400, Page(InvalidConfirmation, "Invalid confirmation link.", None)))
    else if fault then
      Effect(db, Reply(500, Page(ConfirmationError, "An error occurred while confirming your subscription.", None)))
    else
      var found := ConfirmTarget(db, requested);
      if found.None? then Effect(db, Reply(404, Page(InvalidConfirmation, "Subscription not found.", None)))
      else
        var key := found.value;
        var s := db.rows[key];
        var project := FindById(projects, s.projectId);
        if project.None? || !IsActive(project.value) then
          Effect(db, Reply(404, Page(InvalidConfirmation, "This project is no longer active.", None)))
        else
          var p := project.value;
          match s.status
          case Pending =>
            Effect(db.(rows := db.rows[key := SubscribeWithMeta(s, ConfirmMeta(r, now), now)],
                       queue := db.queue + FollowUps(s.id, p)),
                   Reply(200, Page("confirmation.success", "Your subscription has been confirmed successfully!", Some(p.id))))
          case Subscribed =>
            Effect(db, Reply(200, Page("confirmation.already-confirmed", "Your subscription was already confirmed.", Some(p.id))))
          case Unsubscribed =>
            Effect(db, Reply(200, Page("confirmation.resubscribe", "You had previously unsubscribed. Would you like to resubscribe?", Some(p.id))))
          case Bounced =>
            Effect(db, Reply(200, Page("confirmation.bounced", Undeliverable, Some(p.id))))
  }

  /**
   * `ConfirmSubscriptionController::resubscribe` for the row with primary key `id` (route
   * model binding answers 404 for an unknown id). A missing project makes the flag reads
   * throw inside the transaction, which rolls back. The project's status is not checked.
   */
  function ResubscribeSpec(db: Db, projects: seq<Project>, id: nat, r: Request, now: Time, fault: bool): Effect {
    var found := KeyOf(db, id);
    if found.None? then Effect(db, Reply(404, Empty))
    else
      var key := found.value;
      var s := db.rows[key];
      if s.status != Status.Unsubscribed then Effect(db, Reply(400, Page(InvalidConfirmation, "Invalid resubscribe request.", None)))
      else
        var project := FindById(projects, s.projectId);
        if fault || project.None? then
          Effect(db, Reply(500, Page(ConfirmationError, "An error occurred while resubscribing.", None)))
        else
          var p := project.value;
          Effect(db.(rows := db.rows[key := SubscribeWithMeta(s, ResubscribeMeta(r, now), now)],
                     queue := db.queue + FollowUps(s.id, p)),
                 Reply(200, Page("confirmation.resubscribe-success", Resubscribed, Some(p.id))))
  }

  // ---------------------------------------------------------------------------------
  // Running a queued job

  datatype JobRun = JobRun(db: Db, outcome: Outcome)

  /**
   * `SendConfirmationEmail::handle`: skipped unless the row is pending under an active
   * project; when the transport accepts, the send time and the attempt counter are merged
   * into meta. A counter PHP cannot increment fails the run after the mail went out.
   */
  function ConfirmationJobSpec(db: Db, projects: seq<Project>, id: nat, mailOk: bool, now: Time): JobRun {
    var found := KeyOf(db, id);
    if found.None? then JobRun(db, Failed(false))
    else
      var s := db.rows[found.value];
      if !ConfirmationDue(Some(s), FindById(projects, s.projectId)) then JobRun(db, Skipped)
      else if !mailOk then JobRun(db, Failed(false))
      else
        var next := NextAttempt(MetaFields(s.meta));
        if next.None? then JobRun(db, Failed(true))
        else JobRun(db.(rows := db.rows[found.value := RecordSend(s, next.value, now)]), Sent(s.email))
  }

  /** The row after the job records a send: the send time and the new attempt count merged into meta. */
  function RecordSend(s: Subscription, attempts: int, now: Time): (t: Subscription)
    ensures t == s.(meta := t.meta, email := t.email)
    ensures Normal(s.email) ==> t.email == s.email
    ensures t.meta.JObject? && MetaShaped(t.meta)
    ensures AttemptsKey in t.meta.fields && t.meta.fields[AttemptsKey] == JNum(attempts)
  {
    var kvs := map["confirmation_email_sent_at" := JTime(now), AttemptsKey := JNum(attempts)];
    assert AttemptsKey in kvs;
    WithMeta(s, MergeMeta(s.meta, kvs), now)
  }

  /** `SendWelcomeEmail::handle` on the job's row; it writes nothing. */
  function WelcomeJobSpec(db: Db, projects: seq<Project>, id: nat, mailOk: bool): Outcome {
    var found := KeyOf(db, id);
    if found.None? then Failed(false)
    else RunWelcome(db.rows[found.value], FindById(projects, db.rows[found.value].projectId), mailOk)
  }

  /** `SendAdminNotification::handle` on the job's row; it writes nothing. */
  function AdminJobSpec(db: Db, projects: seq<Project>, id: nat, adminEmail: Option<string>, mailOk: bool): Outcome {
    var found := KeyOf(db, id);
    if found.None? then Failed(false)
    else RunAdmin(FindById(projects, db.rows[found.value].projectId), adminEmail, mailOk)
  }
}
