/**
 * The datastore as the handlers use it: the `subscriptions` table, its id index and the
 * job queue as fields updated in place. Each controller action is a method whose effect
 * on `State()` and whose reply are those of the matching function in `Lifecycle`; a
 * transaction is a snapshot of the state taken at `beginTransaction` and restored on
 * rollback.
 */
module Store {
  import opened Wrappers
  import opened Text
  import opened Http
  import opened Foreign
  import opened Projects
  import opened Subscriptions
  import opened Jobs
  import opened Lifecycle
  import opened LifecycleLemmas

  class Datastore {
    var rows: map<Key, Subscription>
    var ids: map<nat, Key>
    var nextId: nat
    var queue: seq<Job>

    function State(): Db
      reads this
    {
      Db(rows, ids, nextId, queue)
    }

    predicate Valid()
      reads this
    {
      ValidDb(State())
    }

    /** An empty table whose auto-increment starts at 1, and an empty queue. */
    constructor ()
      ensures State() == Db(map[], map[], 1, []) && Valid()
    {
      rows := map[];
      ids := map[];
      nextId := 1;
      queue := [];
    }

    // -------------------------------------------------------------------------------
    // Row-level operations

    /** `where('project_id', ..)->where('email', ..)->first()` */
    method Find(key: Key) returns (s: Option<Subscription>)
      ensures s.Some? <==> key in rows
      ensures s.Some? ==> s.value == rows[key]
    {
      s := if key in rows then Some(rows[key]) else None;
    }

    /** `Subscription::create`: the row gets the next id and its key is indexed. */
    method Insert(key: Key, s: Subscription)
      requires s.id == nextId
      modifies this
      ensures State() == Db(old(rows)[key := s], old(ids)[s.id := key], old(nextId) + 1, old(queue))
    {
      rows := rows[key := s];
      ids := ids[s.id := key];
      nextId := nextId + 1;
    }

    /** An UPDATE of the row under `key`. */
    method Write(key: Key, t: Subscription)
      modifies this
      ensures rows == old(rows)[key := t]
      ensures ids == old(ids) && nextId == old(nextId) && queue == old(queue)
    {
      rows := rows[key := t];
    }

    /** Two successive UPDATEs of the row under `key`; the second one wins. */
    method Rewrite(key: Key, first: Subscription, second: Subscription)
      modifies this
      ensures rows == old(rows)[key := second]
      ensures ids == old(ids) && nextId == old(nextId) && queue == old(queue)
    {
      Write(key, first);
      Write(key, second);
      assert rows == old(rows)[key := second];
    }

    /** `Job::dispatch`: with the database queue driver the job is a row, inside the transaction. */
    method Dispatch(job: Job)
      modifies this
      ensures queue == old(queue) + [job]
      ensures rows == old(rows) && ids == old(ids) && nextId == old(nextId)
    {
      queue := queue + [job];
    }

    /** `DB::rollBack` to the state taken at `DB::beginTransaction`. */
    method Rollback(snapshot: Db)
      modifies this
      ensures State() == snapshot
    {
      rows, ids, nextId, queue := snapshot.rows, snapshot.ids, snapshot.nextId, snapshot.queue;
    }

    // -------------------------------------------------------------------------------
    // SubscriptionController::store

    method Subscribe(f: Oracles, disposable: seq<string>, project: Project, r: Request, now: Time, fault: bool)
      returns (reply: Reply)
      requires Valid()
      modifies this
      ensures Valid()
      ensures State() == SubscribeSpec(f, disposable, old(State()), project, r, now, fault).db
      ensures reply == SubscribeSpec(f, disposable, old(State()), project, r, now, fault).reply
    {
      SubscribeKeepsValid(f, disposable, State(), project, r, now, fault);
      var errs := SubscribeRuleErrors(f, r);
      if errs != {} {
        return Rejected(422, ValidationFailed, RuleErrors(errs));
      }
      var check := ValidateEmail(f, disposable, Input(r, "email").s);
      reply := Admit(project, r, now, fault, check);
    }

    /** The part of `store` after validation: the transaction. */
    method Admit(project: Project, r: Request, now: Time, fault: bool, check: EmailCheck) returns (reply: Reply)
      modifies this
      ensures State() == AdmitSubscription(old(State()), project, r, now, fault, check).db
      ensures reply == AdmitSubscription(old(State()), project, r, now, fault, check).reply
    {
      if !check.valid {
        return Rejected(422, Join(", ", check.errors), FieldMessages("email", check.errors));
      }
      var snapshot := State();
      var key := Key(project.id, check.email);
      var existing := Find(key);
      if existing.Some? {
        reply := HandleExisting(key, project, r, now);
      } else {
        var s := CreateNew(key, project, r, now);
        QueueEmailsFor(s, project);
        reply := Reply(200, Envelope(true, SuccessMessage(s.status), Some(DataOf(s, s.status == Pending)), None));
      }
      if fault {
        Rollback(snapshot);
        reply := Reply(500, Envelope(false, Unexpected, None, None));
      }
    }

    /** `handleExistingSubscription` */
    method HandleExisting(key: Key, project: Project, r: Request, now: Time) returns (reply: Reply)
      requires key in rows
      modifies this
      ensures State() == ExistingSubscription(old(State()), key, project, r, now).db
      ensures reply == ExistingSubscription(old(State()), key, project, r, now).reply
    {
      var s := rows[key];
      match s.status {
        case Unsubscribed =>
          var s2 := Revive(key, project, r, now);
          reply := Reply(200, Envelope(true, Resubscribed, Some(DataOf(s2, false)), None));
        case Pending =>
          reply := Reply(200, Envelope(true, ConfirmPrompt, Some(DataOf(s, true)), None));
        case Subscribed =>
          reply := Reply(200, Envelope(true, AlreadySubscribed, Some(DataOf(s, false)), None));
        case Bounced =>
          reply := Rejected(422, Undeliverable, FieldMessages("email", [Undeliverable]));
      }
    }

    /** The unsubscribed branch: `subscribe()`, the tracking `update`, then the welcome email. */
    method Revive(key: Key, project: Project, r: Request, now: Time) returns (s2: Subscription)
      requires key in rows
      modifies this
      ensures s2 == Retrack(Subscriptions.Subscribe(old(rows)[key], now), r, now)
      ensures rows == old(rows)[key := s2]
      ensures queue == old(queue) + (if project.welcomeEmail then [WelcomeJob(old(rows)[key].id)] else [])
      ensures ids == old(ids) && nextId == old(nextId)
    {
      var s := rows[key];
      var s1 := Subscriptions.Subscribe(s, now);
      s2 := Retrack(s1, r, now);
      Rewrite(key, s1, s2);

      if project.welcomeEmail {
        Dispatch(WelcomeJob(s.id));
      }
    }

    /** `createNewSubscription` */
    method CreateNew(key: Key, project: Project, r: Request, now: Time) returns (s: Subscription)
      modifies this
      ensures s == NewRow(old(State()), key, project, r, now)
      ensures State() == Db(old(rows)[key := s], old(ids)[s.id := key], old(nextId) + 1, old(queue))
    {
      s := NewRow(State(), key, project, r, now);
      Insert(key, s);
    }

    /** `queueEmails` */
    method QueueEmailsFor(s: Subscription, project: Project)
      modifies this
      ensures State() == old(State()).(queue := old(queue) + QueueEmails(s, project))
    {
      if s.status == Pending {
        Dispatch(ConfirmationJob(s.id));
      } else if project.welcomeEmail {
        Dispatch(WelcomeJob(s.id));
      }
      if project.adminNotifications {
        Dispatch(AdminJob(s.id));
      }
    }

    /** `unsubscribe()` then `update(['meta' => ...])`: two writes of the row under `key`. */
    method UnsubscribeRow(key: Key, kvs: map<string, Json>, now: Time) returns (t: Subscription)
      requires key in rows
      modifies this
      ensures t == UnsubscribeWithMeta(old(rows)[key], kvs, now)
      ensures rows == old(rows)[key := t]
      ensures ids == old(ids) && nextId == old(nextId) && queue == old(queue)
    {
      var s1 := Subscriptions.Unsubscribe(rows[key], now);
      t := WithMeta(s1, MergeMeta(s1.meta, kvs), now);
      Rewrite(key, s1, t);
    }

    /** `subscribe()` then `update(['meta' => ...])`: two writes of the row under `key`. */
    method SubscribeRow(key: Key, kvs: map<string, Json>, now: Time) returns (t: Subscription)
      requires key in rows
      modifies this
      ensures t == SubscribeWithMeta(old(rows)[key], kvs, now)
      ensures rows == old(rows)[key := t]
      ensures ids == old(ids) && nextId == old(nextId) && queue == old(queue)
    {
      var s1 := Subscriptions.Subscribe(rows[key], now);
      t := WithMeta(s1, MergeMeta(s1.meta, kvs), now);
      Rewrite(key, s1, t);
    }

    /** The welcome job, then the admin job, each when the project asks for it. */
    method DispatchFollowUps(id: nat, p: Project)
      modifies this
      ensures queue == old(queue) + FollowUps(id, p)
      ensures rows == old(rows) && ids == old(ids) && nextId == old(nextId)
    {
      if p.welcomeEmail {
        Dispatch(WelcomeJob(id));
      }
      if p.adminNotifications {
        Dispatch(AdminJob(id));
      }
    }

    // -------------------------------------------------------------------------------
    // UnsubscribeController::store

    method Unsubscribe(f: Oracles, project: Project, r: Request, now: Time, fault: bool) returns (reply: Reply)
      requires Valid()
      modifies this
      ensures Valid()
      ensures State() == UnsubscribeSpec(f, old(State()), project, r, now, fault).db
      ensures reply == UnsubscribeSpec(f, old(State()), project, r, now, fault).reply
    {
      UnsubscribeKeepsValid(f, State(), project, r, now, fault);
      var errs := UnsubscribeRuleErrors(f, r);
      if errs != {} {
        return Rejected(422, ValidationFailed, RuleErrors(errs));
      }
      var snapshot := State();
      var key := Key(project.id, NormalizeEmail(Input(r, "email").s));
      UnsubscribeAt(key, project, r, now);
      if fault {
        Rollback(snapshot);
      }
      reply := ProcessedReply;
    }

    /** The unsubscribe transaction on the row under `key`, when nothing throws. */
    method UnsubscribeAt(key: Key, project: Project, r: Request, now: Time)
      modifies this
      ensures State() == UnsubscribeRowEffect(old(State()), key, project, r, now).db
    {
      var existing := Find(key);
      if existing.Some? && existing.value.status != Status.Unsubscribed {
        var _ := UnsubscribeRow(key, UnsubscribeMeta(r, now), now);
        if project.adminNotifications {
          Dispatch(AdminJob(existing.value.id));
        }
      }
    }

    // -------------------------------------------------------------------------------
    // UnsubscribeController::unsubscribeViaUrl

    method UnsubscribeViaUrl(f: Oracles, projects: seq<Project>, r: Request, now: Time, crash: Option<nat>)
      returns (reply: Reply)
      requires Valid()
      modifies this
      ensures Valid()
      ensures State() == UrlUnsubscribeSpec(f, old(State()), projects, r, now, crash).db
      ensures reply == UrlUnsubscribeSpec(f, old(State()), projects, r, now, crash).reply
    {
      UrlUnsubscribeKeepsValid(f, State(), projects, r, now, crash);
      if !LinkValid(f, r) {
        return Reply(400, Page(InvalidUnsubscribe, "", None));
      }
      if crash == Some(0) {
        return SuccessPage(None);
      }
      var found := LinkProject(projects, r);
      if found.None? || !IsActive(found.value) {
        return Reply(404, Page(InvalidUnsubscribe, "", None));
      }
      if crash == Some(1) {
        return SuccessPage(None);
      }
      reply := UnsubscribeLinked(found.value, LinkKey(found.value, r), r, now, crash);
    }

    /** The link handler from the row lookup on; a crash keeps what was already written. */
    method UnsubscribeLinked(p: Project, key: Key, r: Request, now: Time, crash: Option<nat>) returns (reply: Reply)
      modifies this
      ensures State() == LinkUnsubscribe(old(State()), p, key, r, now, crash).db
      ensures reply == LinkUnsubscribe(old(State()), p, key, r, now, crash).reply
    {
      var existing := Find(key);
      if existing.None? || existing.value.status == Status.Unsubscribed {
        return SuccessPage(Some(p.id));
      }
      reply := WriteLinked(p, key, r, now, crash);
    }

    /** The status write, the meta write and the admin job, any of which may throw. */
    method WriteLinked(p: Project, key: Key, r: Request, now: Time, crash: Option<nat>) returns (reply: Reply)
      requires key in rows
      modifies this
      ensures rows == LinkWrites(old(State()), p, key, r, now, crash).db.rows
      ensures queue == LinkWrites(old(State()), p, key, r, now, crash).db.queue
      ensures ids == old(ids) && nextId == old(nextId)
      ensures reply == LinkWrites(old(State()), p, key, r, now, crash).reply
    {
      var s := rows[key];
      if crash == Some(2) {
        return SuccessPage(None);
      }
      Write(key, Subscriptions.Unsubscribe(s, now));
      if crash == Some(3) {
        return SuccessPage(None);
      }
      LinkWritesLate(old(State()), p, key, r, now, crash);
      UpdateTwice(old(rows), key, Subscriptions.Unsubscribe(s, now), UnsubscribeWithMeta(s, ViaLinkMeta(r, now), now));
      reply := FinishLinked(p, key, s, r, now, crash);
    }

    /** The meta write over the status write, then the admin job. */
    method FinishLinked(p: Project, key: Key, s: Subscription, r: Request, now: Time, crash: Option<nat>)
      returns (reply: Reply)
      modifies this
      ensures rows == old(rows)[key := UnsubscribeWithMeta(s, ViaLinkMeta(r, now), now)]
      ensures queue == old(queue) + (if p.adminNotifications && crash != Some(4) then [AdminJob(s.id)] else [])
      ensures ids == old(ids) && nextId == old(nextId)
      ensures reply == if p.adminNotifications && crash == Some(4) then SuccessPage(None) else SuccessPage(Some(p.id))
    {
      Write(key, UnsubscribeWithMeta(s, ViaLinkMeta(r, now), now));
      var crashed := NotifyAdmin(p, s.id, crash);
      reply := if crashed then SuccessPage(None) else SuccessPage(Some(p.id));
    }

    /** The link handler's admin job, whose insert is its fifth database operation. */
    method NotifyAdmin(p: Project, id: nat, crash: Option<nat>) returns (crashed: bool)
      modifies this
      ensures crashed <==> p.adminNotifications && crash == Some(4)
      ensures queue == old(queue) + (if p.adminNotifications && !crashed then [AdminJob(id)] else [])
      ensures rows == old(rows) && ids == old(ids) && nextId == old(nextId)
    {
      crashed := false;
      if p.adminNotifications {
        if crash == Some(4) {
          return true;
        }
        Dispatch(AdminJob(id));
      }
    }

    // -------------------------------------------------------------------------------
    // ConfirmSubscriptionController

    /** `__invoke`: the lookups and the confirmation run inside one transaction. */
    method Confirm(projects: seq<Project>, r: Request, now: Time, fault: bool) returns (reply: Reply)
      requires Valid()
      modifies this
      ensures Valid()
      ensures State() == ConfirmSpec(old(State()), projects, r, now, fault).db
      ensures reply == ConfirmSpec(old(State()), projects, r, now, fault).reply
    {
      ConfirmKeepsValid(State(), projects, r, now, fault);
      var requested := Input(r, "subscription");
      if !JsonTruthy(requested) {
        return Reply(400, Page(InvalidConfirmation, "Invalid confirmation link.", None));
      }
      var snapshot := State();
      reply := ConfirmFound(projects, requested, r, now);
      if fault {
        Rollback(snapshot);
        reply := Reply(500, Page(ConfirmationError, "An error occurred while confirming your subscription.", None));
      }
    }

    /** Inside the confirmation transaction, without an exception. */
    method ConfirmFound(projects: seq<Project>, requested: Json, r: Request, now: Time) returns (reply: Reply)
      requires JsonTruthy(requested) && requested == Input(r, "subscription")
      modifies this
      ensures State() == ConfirmSpec(old(State()), projects, r, now, false).db
      ensures reply == ConfirmSpec(old(State()), projects, r, now, false).reply
    {
      var found := ConfirmTarget(State(), requested);
      if found.None? {
        return Reply(404, Page(InvalidConfirmation, "Subscription not found.", None));
      }
      var key := found.value;
      var s := rows[key];
      var project := FindById(projects, s.projectId);
      if project.None? || !IsActive(project.value) {
        return Reply(404, Page(InvalidConfirmation, "This project is no longer active.", None));
      }
      var p := project.value;
      match s.status {
        case Pending =>
          var _ := SubscribeRow(key, ConfirmMeta(r, now), now);
          DispatchFollowUps(s.id, p);
          reply := Reply(200, Page("confirmation.success", "Your subscription has been confirmed successfully!", Some(p.id)));
        case Subscribed =>
          reply := Reply(200, Page("confirmation.already-confirmed", "Your subscription was already confirmed.", Some(p.id)));
        case Unsubscribed =>
          reply := Reply(200, Page("confirmation.resubscribe", "You had previously unsubscribed. Would you like to resubscribe?", Some(p.id)));
        case Bounced =>
          reply := Reply(200, Page("confirmation.bounced", Undeliverable, Some(p.id)));
      }
    }

    /**
     * `resubscribe` for the row with primary key `id`: the writes happen, then the flag
     * reads of a missing project throw and the transaction rolls back.
     */
    method Resubscribe(projects: seq<Project>, id: nat, r: Request, now: Time, fault: bool) returns (reply: Reply)
      requires Valid()
      modifies this
      ensures Valid()
      ensures State() == ResubscribeSpec(old(State()), projects, id, r, now, fault).db
      ensures reply == ResubscribeSpec(old(State()), projects, id, r, now, fault).reply
    {
      ResubscribeKeepsValid(State(), projects, id, r, now, fault);
      var found := KeyOf(State(), id);
      if found.None? {
        return Reply(404, Empty);
      }
      var key := found.value;
      var s := rows[key];
      if s.status != Status.Unsubscribed {
        return Reply(400, Page(InvalidConfirmation, "Invalid resubscribe request.", None));
      }
      var snapshot := State();
      var _ := SubscribeRow(key, ResubscribeMeta(r, now), now);
      var project := FindById(projects, s.projectId);
      if fault || project.None? {
        Rollback(snapshot);
        return Reply(500, Page(ConfirmationError, "An error occurred while resubscribing.", None));
      }
      DispatchFollowUps(s.id, project.value);
      reply := Reply(200, Page("confirmation.resubscribe-success", Resubscribed, Some(project.value.id)));
    }

    // -------------------------------------------------------------------------------
    // SendConfirmationEmail::handle on the queued row

    method RunConfirmationJob(projects: seq<Project>, id: nat, mailOk: bool, now: Time) returns (outcome: Outcome)
      requires Valid()
      modifies this
      ensures Valid()
      ensures State() == ConfirmationJobSpec(old(State()), projects, id, mailOk, now).db
      ensures outcome == ConfirmationJobSpec(old(State()), projects, id, mailOk, now).outcome
    {
      ConfirmationJobKeepsValid(State(), projects, id, mailOk, now);
      var found := KeyOf(State(), id);
      if found.None? {
        return Failed(false);
      }
      var s := rows[found.value];
      if !ConfirmationDue(Some(s), FindById(projects, s.projectId)) {
        return Skipped;
      }
      if !mailOk {
        return Failed(false);
      }
      var next := NextAttempt(MetaFields(s.meta));
      if next.None? {
        return Failed(true);
      }
      Write(found.value, RecordSend(s, next.value, now));
      outcome := Sent(s.email);
    }
  }
}
