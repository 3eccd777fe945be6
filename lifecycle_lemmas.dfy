/**
 * What the handlers promise about the datastore: each keeps its invariant, a rolled-back
 * transaction changes nothing, repeating a request is harmless, and each writes only the
 * one row the request names.
 */
module LifecycleLemmas {
  import opened Wrappers
  import opened Text
  import opened Http
  import opened Foreign
  import opened Projects
  import opened Subscriptions
  import opened Jobs
  import opened Lifecycle

  // ---------------------------------------------------------------------------------
  // The invariant under the three kinds of write

  /** What a rewrite of the row under `k` must keep: its id, its key and the row invariants. */
  predicate Replaces(k: Key, before: Subscription, t: Subscription) {
    t.id == before.id && t.projectId == k.projectId && t.email == k.email &&
    MetaShaped(t.meta) && (t.status == Subscribed ==> t.confirmedAt.Some?)
  }

  /** Rewriting one row in place (same id, same key) and dispatching jobs for it. */
  lemma UpdateRowValid(db: Db, k: Key, t: Subscription, jobs: seq<Job>)
    requires ValidDb(db) && k in db.rows && Replaces(k, db.rows[k], t)
    requires forall n :: 0 <= n < |jobs| ==> jobs[n].subscriptionId == t.id
    ensures ValidDb(db.(rows := db.rows[k := t], queue := db.queue + jobs))
  {
    RewriteValid(db, k, t);
    assert RowFits(db, k);
    AppendJobsKnown(db.(rows := db.rows[k := t]), jobs);
  }

  /** Rewriting one row in place without dispatching anything. */
  lemma RewriteValid(db: Db, k: Key, t: Subscription)
    requires ValidDb(db) && k in db.rows && Replaces(k, db.rows[k], t)
    ensures ValidDb(db.(rows := db.rows[k := t]))
  {
    UpdateRowFits(db, k, t);
    UpdateRowIds(db, k, t);
  }

  lemma UpdateRowFits(db: Db, k: Key, t: Subscription)
    requires RowsFit(db) && k in db.rows
    requires t.id == db.rows[k].id && t.projectId == k.projectId && t.email == k.email
    requires MetaShaped(t.meta) && (t.status == Subscribed ==> t.confirmedAt.Some?)
    ensures RowsFit(db.(rows := db.rows[k := t]))
  {
    var db2 := db.(rows := db.rows[k := t]);
    forall k2 | k2 in db2.rows ensures RowFits(db2, k2) {
      assert RowFits(db, k2);
    }
  }

  lemma UpdateRowIds(db: Db, k: Key, t: Subscription)
    requires IdsPointBack(db) && k in db.rows && t.id == db.rows[k].id
    ensures IdsPointBack(db.(rows := db.rows[k := t]))
  {
  }

  /** Jobs for a row in the index may be appended to the queue. */
  lemma AppendJobsKnown(db: Db, jobs: seq<Job>)
    requires QueueKnown(db)
    requires forall n :: 0 <= n < |jobs| ==> jobs[n].subscriptionId in db.ids
    ensures QueueKnown(db.(queue := db.queue + jobs))
  {
    var db2 := db.(queue := db.queue + jobs);
    forall n | 0 <= n < |db2.queue| ensures db2.queue[n].subscriptionId in db2.ids {
      if n >= |db.queue| {
        assert db2.queue[n] == jobs[n - |db.queue|];
      }
    }
  }

  /** Inserting a new row under a fresh key with the next id. */
  lemma InsertRowValid(db: Db, k: Key, t: Subscription, jobs: seq<Job>)
    requires ValidDb(db) && k !in db.rows
    requires t.id == db.nextId && t.projectId == k.projectId && t.email == k.email
    requires Normal(k.email)
    requires MetaShaped(t.meta) && (t.status == Subscribed ==> t.confirmedAt.Some?)
    requires forall n :: 0 <= n < |jobs| ==> jobs[n].subscriptionId == t.id
    ensures ValidDb(Db(db.rows[k := t], db.ids[t.id := k], db.nextId + 1, db.queue + jobs))
  {
    var db1 := Db(db.rows[k := t], db.ids[t.id := k], db.nextId + 1, db.queue);
    InsertRowFits(db, k, t);
    InsertRowIds(db, k, t);
    QueueKnownGrows(db, db1);
    AppendJobsKnown(db1, jobs);
  }

  lemma InsertRowFits(db: Db, k: Key, t: Subscription)
    requires RowsFit(db) && IdsPointBack(db) && k !in db.rows
    requires t.id == db.nextId && t.projectId == k.projectId && t.email == k.email
    requires Normal(k.email)
    requires MetaShaped(t.meta) && (t.status == Subscribed ==> t.confirmedAt.Some?)
    ensures RowsFit(Db(db.rows[k := t], db.ids[t.id := k], db.nextId + 1, db.queue))
  {
    var db2 := Db(db.rows[k := t], db.ids[t.id := k], db.nextId + 1, db.queue);
    assert db.nextId !in db.ids;
    forall k2 | k2 in db2.rows ensures RowFits(db2, k2) {
      if k2 != k {
        assert RowFits(db, k2);
      }
    }
  }

  lemma InsertRowIds(db: Db, k: Key, t: Subscription)
    requires IdsPointBack(db) && k !in db.rows && t.id == db.nextId
    ensures IdsPointBack(Db(db.rows[k := t], db.ids[t.id := k], db.nextId + 1, db.queue))
  {
  }

  lemma QueueKnownGrows(db: Db, db2: Db)
    requires QueueKnown(db) && db2.queue == db.queue && db.ids.Keys <= db2.ids.Keys
    ensures QueueKnown(db2)
  {
  }

  // ---------------------------------------------------------------------------------
  // Subscribe

  /** Creating a row for a fresh normalised key keeps the invariant. */
  lemma CreateKeepsValid(db: Db, key: Key, project: Project, r: Request, now: Time)
    requires ValidDb(db) && key !in db.rows && key.projectId == project.id
    requires Normal(key.email) && ArrayFieldOk(Input(r, "meta"))
    ensures ValidDb(CreateSubscription(db, key, project, r, now).db)
  {
    var t := NewRow(db, key, project, r, now);
    InsertRowValid(db, key, t, QueueEmails(t, project));
  }

  /** Handling an address already on file keeps the invariant. */
  lemma ExistingKeepsValid(db: Db, key: Key, project: Project, r: Request, now: Time)
    requires ValidDb(db) && key in db.rows && ArrayFieldOk(Input(r, "meta"))
    ensures ValidDb(ExistingSubscription(db, key, project, r, now).db)
  {
    var s := db.rows[key];
    assert RowFits(db, key);
    if s.status == Status.Unsubscribed {
      var t := Retrack(Subscribe(s, now), r, now);
      var jobs := if project.welcomeEmail then [WelcomeJob(s.id)] else [];
      UpdateRowValid(db, key, t, jobs);
    }
  }

  lemma AdmitKeepsValid(db: Db, project: Project, r: Request, now: Time, fault: bool, check: EmailCheck)
    requires ValidDb(db) && Normal(check.email) && ArrayFieldOk(Input(r, "meta"))
    ensures ValidDb(AdmitSubscription(db, project, r, now, fault, check).db)
  {
    var key := Key(project.id, check.email);
    if check.valid && !fault {
      if key in db.rows {
        ExistingKeepsValid(db, key, project, r, now);
      } else {
        CreateKeepsValid(db, key, project, r, now);
      }
    }
  }

  lemma SubscribeKeepsValid(f: Oracles, disposable: seq<string>, db: Db, project: Project,
                            r: Request, now: Time, fault: bool)
    requires ValidDb(db)
    ensures ValidDb(SubscribeSpec(f, disposable, db, project, r, now, fault).db)
  {
    if SubscribeRuleErrors(f, r) == {} {
      var check := EmailVerdict(f, disposable, Input(r, "email").s);
      AdmitKeepsValid(db, project, r, now, fault, check);
    }
  }

  /** A request that passes validation but fails inside the transaction writes nothing. */
  lemma SubscribeFaultRollsBack(f: Oracles, disposable: seq<string>, db: Db, project: Project,
                                r: Request, now: Time)
    ensures SubscribeSpec(f, disposable, db, project, r, now, true).db == db
    ensures SubscribeRuleErrors(f, r) == {} && EmailVerdict(f, disposable, Input(r, "email").s).valid ==>
              SubscribeSpec(f, disposable, db, project, r, now, true).reply ==
              Reply(500, Envelope(false, Unexpected, None, None))
  {
  }

  /** The subscribe handler for a request that passed both validations and did not fail. */
  lemma SubscribeAdmits(f: Oracles, disposable: seq<string>, db: Db, project: Project, r: Request, now: Time)
    requires SubscribeRuleErrors(f, r) == {}
    requires EmailVerdict(f, disposable, Input(r, "email").s).valid
    ensures var key := Key(project.id, NormalizeEmail(Input(r, "email").s));
            SubscribeSpec(f, disposable, db, project, r, now, false) ==
              if key in db.rows then ExistingSubscription(db, key, project, r, now)
              else CreateSubscription(db, key, project, r, now)
  {
  }

  /**
   * A new address gets a row under the next id, pending exactly under double opt-in,
   * confirmed now otherwise; the reply echoes it and the queue gains `QueueEmails`.
   */
  lemma CreateFacts(db: Db, key: Key, project: Project, r: Request, now: Time)
    requires key !in db.rows && Normal(key.email) && key.projectId == project.id
    ensures var e := CreateSubscription(db, key, project, r, now);
            && e.db.rows.Keys == db.rows.Keys + {key}
            && (forall k :: k in db.rows ==> e.db.rows[k] == db.rows[k])
            && e.db.nextId == db.nextId + 1
            && e.db.queue == db.queue + QueueEmails(e.db.rows[key], project)
    ensures var t := CreateSubscription(db, key, project, r, now).db.rows[key];
            && t.id == db.nextId && t.email == key.email && t.projectId == key.projectId
            && (t.status == Pending <==> project.doubleOptIn)
            && (t.status == Subscribed <==> !project.doubleOptIn)
            && (t.confirmedAt == Some(now) <==> !project.doubleOptIn)
            && (project.doubleOptIn ==> t.confirmedAt.None?)
  {
    NewRowFacts(db, key, project, r, now);
  }

  lemma NewRowFacts(db: Db, key: Key, project: Project, r: Request, now: Time)
    requires Normal(key.email) && key.projectId == project.id
    ensures var t := NewRow(db, key, project, r, now);
            && t.id == db.nextId && t.email == key.email && t.projectId == key.projectId
            && (t.status == Pending <==> project.doubleOptIn)
            && (t.status == Subscribed <==> !project.doubleOptIn)
            && (t.confirmedAt == Some(now) <==> !project.doubleOptIn)
            && (project.doubleOptIn ==> t.confirmedAt.None?)
  {
  }

  /** The reply to a new address echoes its row and asks for confirmation under double opt-in. */
  lemma CreateReply(db: Db, key: Key, project: Project, r: Request, now: Time)
    requires Normal(key.email) && key.projectId == project.id
    ensures var t := NewRow(db, key, project, r, now);
            CreateSubscription(db, key, project, r, now).reply ==
              Reply(200, Envelope(true, if project.doubleOptIn then ConfirmPrompt else Welcome,
                                  Some(SubscriptionData(db.nextId, key.email, StatusName(t.status), project.doubleOptIn)), None))
  {
    NewRowFacts(db, key, project, r, now);
  }

  lemma SubscribeCreates(f: Oracles, disposable: seq<string>, db: Db, project: Project, r: Request, now: Time)
    requires SubscribeRuleErrors(f, r) == {}
    requires EmailVerdict(f, disposable, Input(r, "email").s).valid
    requires Key(project.id, NormalizeEmail(Input(r, "email").s)) !in db.rows
    ensures var e := SubscribeSpec(f, disposable, db, project, r, now, false);
            var key := Key(project.id, NormalizeEmail(Input(r, "email").s));
            var t := e.db.rows[key];
            && e.db.rows.Keys == db.rows.Keys + {key}
            && t.id == db.nextId && t.email == key.email
            && (t.status == Pending <==> project.doubleOptIn)
            && e.db.queue == db.queue + QueueEmails(t, project)
            && e.reply.status == 200
  {
    SubscribeAdmits(f, disposable, db, project, r, now);
    CreateFacts(db, Key(project.id, NormalizeEmail(Input(r, "email").s)), project, r, now);
  }

  /** An address already pending, subscribed or bounced is answered without any write. */
  lemma ExistingUnchanged(db: Db, key: Key, project: Project, r: Request, now: Time)
    requires key in db.rows && db.rows[key].status != Status.Unsubscribed
    ensures ExistingSubscription(db, key, project, r, now).db == db
    ensures db.rows[key].status == Bounced ==>
              ExistingSubscription(db, key, project, r, now).reply ==
              Reply(422, Envelope(false, Undeliverable, None, Some(FieldMessages("email", [Undeliverable]))))
    ensures db.rows[key].status != Bounced ==>
              ExistingSubscription(db, key, project, r, now).reply.status == 200
  {
  }

  /**
   * Subscribing an unsubscribed address resubscribes it in place: subscribed, confirmed
   * now, tracking fields replaced, the welcome mail queued by flag and no admin mail.
   */
  lemma ResubscribeInPlace(db: Db, key: Key, project: Project, r: Request, now: Time)
    requires key in db.rows && db.rows[key].status == Status.Unsubscribed && Normal(key.email)
    requires db.rows[key].email == key.email
    ensures var e := ExistingSubscription(db, key, project, r, now);
            var t := e.db.rows[key];
            && e.db.rows.Keys == db.rows.Keys && e.db.ids == db.ids && e.db.nextId == db.nextId
            && (forall k :: k in db.rows && k != key ==> e.db.rows[k] == db.rows[k])
            && t.id == db.rows[key].id && t.email == key.email
            && t.status == Subscribed && t.confirmedAt == Some(now)
            && t.meta == Input(r, "meta") && t.ip == Some(r.ip)
            && e.db.queue == db.queue + (if project.welcomeEmail then [WelcomeJob(t.id)] else [])
            && e.reply.status == 200
  {
    var s := db.rows[key];
    RevivedRow(s, key, r, now);
    ExistingUnsubscribed(db, key, project, r, now);
    UpdateInPlace(db.rows, key, Retrack(Subscriptions.Subscribe(s, now), r, now));
  }

  /** A second update of the same key overwrites the first. */
  lemma UpdateTwice<K, V>(m: map<K, V>, key: K, a: V, b: V)
    ensures m[key := a][key := b] == m[key := b]
  { }

  /** Updating a key a map already holds keeps its key set and every other entry. */
  lemma UpdateInPlace<K, V>(m: map<K, V>, key: K, v: V)
    requires key in m
    ensures m[key := v].Keys == m.Keys && m[key := v][key] == v
    ensures forall k :: k in m && k != key ==> m[key := v][k] == m[k]
  {
  }

  /** `handleExistingSubscription` on an unsubscribed row, unfolded. */
  lemma ExistingUnsubscribed(db: Db, key: Key, project: Project, r: Request, now: Time)
    requires key in db.rows && db.rows[key].status == Status.Unsubscribed
    ensures var s2 := Retrack(Subscriptions.Subscribe(db.rows[key], now), r, now);
            var e := ExistingSubscription(db, key, project, r, now);
            && e.db == db.(rows := db.rows[key := s2],
                           queue := db.queue + (if project.welcomeEmail then [WelcomeJob(db.rows[key].id)] else []))
            && e.reply.status == 200
  {
  }

  /** The row a resubscribe through the API leaves: subscribed, confirmed now, retracked. */
  lemma RevivedRow(s: Subscription, key: Key, r: Request, now: Time)
    requires s.email == key.email && Normal(key.email)
    ensures var t := Retrack(Subscriptions.Subscribe(s, now), r, now);
            && t.id == s.id && t.email == key.email && t.status == Subscribed && t.confirmedAt == Some(now)
            && t.meta == Input(r, "meta") && t.ip == Some(r.ip)
  {
  }

  /**
   * Repeating a subscribe request that went through changes nothing: the address is then
   * pending or subscribed (or was refused), so the second call only echoes the row.
   */
  lemma SubscribeIdempotent(f: Oracles, disposable: seq<string>, db: Db, project: Project,
                            r: Request, now: Time, now2: Time, fault2: bool)
    requires ValidDb(db)
    ensures var db1 := SubscribeSpec(f, disposable, db, project, r, now, false).db;
            SubscribeSpec(f, disposable, db1, project, r, now2, fault2).db == db1
  {
    var db1 := SubscribeSpec(f, disposable, db, project, r, now, false).db;
    if SubscribeRuleErrors(f, r) == {} && EmailVerdict(f, disposable, Input(r, "email").s).valid {
      var key := Key(project.id, NormalizeEmail(Input(r, "email").s));
      SubscribeAdmits(f, disposable, db, project, r, now);
      if key !in db.rows {
        CreateFacts(db, key, project, r, now);
      } else if db.rows[key].status == Status.Unsubscribed {
        assert RowFits(db, key);
        ResubscribeInPlace(db, key, project, r, now);
      } else {
        ExistingUnchanged(db, key, project, r, now);
      }
      assert key in db1.rows && db1.rows[key].status != Status.Unsubscribed;
      if !fault2 {
        SubscribeAdmits(f, disposable, db1, project, r, now2);
        ExistingUnchanged(db1, key, project, r, now2);
      }
    }
  }

  // ---------------------------------------------------------------------------------
  // Unsubscribe (JSON)

  /** The row an unsubscribe request names. */
  function UnsubscribeKey(project: Project, r: Request): Key {
    Key(project.id, NormalizeEmail(if Input(r, "email").JStr? then Input(r, "email").s else ""))
  }

  lemma UnsubscribedRowFits(db: Db, k: Key, kvs: map<string, Json>, now: Time)
    requires ValidDb(db) && k in db.rows
    ensures var t := UnsubscribeWithMeta(db.rows[k], kvs, now);
            t.id == db.rows[k].id && t.projectId == k.projectId && t.email == k.email
            && MetaShaped(t.meta) && t.status == Status.Unsubscribed
  {
    assert RowFits(db, k);
  }

  lemma UnsubscribeKeepsValid(f: Oracles, db: Db, project: Project, r: Request, now: Time, fault: bool)
    requires ValidDb(db)
    ensures ValidDb(UnsubscribeSpec(f, db, project, r, now, fault).db)
  {
    if UnsubscribeRuleErrors(f, r) == {} && !fault {
      UnsubscribeRowKeepsValid(db, Key(project.id, NormalizeEmail(Input(r, "email").s)), project, r, now);
    }
  }

  lemma UnsubscribeRowKeepsValid(db: Db, key: Key, project: Project, r: Request, now: Time)
    requires ValidDb(db)
    ensures ValidDb(UnsubscribeRowEffect(db, key, project, r, now).db)
  {
    if key in db.rows && db.rows[key].status != Status.Unsubscribed {
      UnsubscribedRowValid(db, key, UnsubscribeMeta(r, now), now, project.adminNotifications);
    }
  }

  /** Unsubscribing the row under `k` with new meta keys, and queueing its admin mail or not. */
  lemma UnsubscribedRowValid(db: Db, k: Key, kvs: map<string, Json>, now: Time, notify: bool)
    requires ValidDb(db) && k in db.rows
    ensures var s := db.rows[k];
            ValidDb(db.(rows := db.rows[k := UnsubscribeWithMeta(s, kvs, now)],
                        queue := db.queue + if notify then [AdminJob(s.id)] else []))
  {
    var s := db.rows[k];
    var t := UnsubscribeWithMeta(s, kvs, now);
    assert Replaces(k, s, t) by {
      UnsubscribedRowFits(db, k, kvs, now);
    }
    if notify {
      UpdateRowValid(db, k, t, [AdminJob(s.id)]);
    } else {
      UpdateRowValid(db, k, t, []);
    }
  }

  /**
   * Once the input is valid the reply is the same whatever the datastore holds and
   * whether the transaction failed: it does not reveal whether the address was on file.
   */
  lemma UnsubscribeReplyUniform(f: Oracles, db: Db, project: Project, r: Request, now: Time, fault: bool)
    requires UnsubscribeRuleErrors(f, r) == {}
    ensures UnsubscribeSpec(f, db, project, r, now, fault).reply == ProcessedReply
  {
  }

  /**
   * Unsubscribing an address that is on file and not yet unsubscribed: its status becomes
   * unsubscribed, `confirmed_at` survives, the four unsubscribe keys are merged into meta
   * over the old keys, the admin mail is queued by flag, and no other row changes.
   */
  lemma UnsubscribeEffect(f: Oracles, db: Db, project: Project, r: Request, now: Time)
    requires UnsubscribeRuleErrors(f, r) == {}
    requires var k := UnsubscribeKey(project, r); k in db.rows && db.rows[k].status != Status.Unsubscribed
    ensures var k := UnsubscribeKey(project, r);
            var e := UnsubscribeSpec(f, db, project, r, now, false);
            var s := db.rows[k];
            var t := e.db.rows[k];
            && e.db.rows.Keys == db.rows.Keys && e.db.ids == db.ids && e.db.nextId == db.nextId
            && (forall k2 :: k2 in db.rows && k2 != k ==> e.db.rows[k2] == db.rows[k2])
            && t.status == Status.Unsubscribed && t.confirmedAt == s.confirmedAt && t.id == s.id
            && t.meta == MergeMeta(s.meta, UnsubscribeMeta(r, now))
            && e.db.queue == db.queue + (if project.adminNotifications then [AdminJob(s.id)] else [])
  {
    var k := UnsubscribeKey(project, r);
    var s := db.rows[k];
    var t := UnsubscribeWithMeta(s, UnsubscribeMeta(r, now), now);
    UnsubscribeUnfold(f, db, project, r, now);
    UpdateInPlace(db.rows, k, t);
  }

  /** The unsubscribe handler's effect on a row that is on file and not yet unsubscribed. */
  lemma UnsubscribeUnfold(f: Oracles, db: Db, project: Project, r: Request, now: Time)
    requires UnsubscribeRuleErrors(f, r) == {}
    requires var k := UnsubscribeKey(project, r); k in db.rows && db.rows[k].status != Status.Unsubscribed
    ensures var k := UnsubscribeKey(project, r);
            var s := db.rows[k];
            UnsubscribeSpec(f, db, project, r, now, false).db
              == db.(rows := db.rows[k := UnsubscribeWithMeta(s, UnsubscribeMeta(r, now), now)],
                     queue := db.queue + (if project.adminNotifications then [AdminJob(s.id)] else []))
  {
    assert UnsubscribeSpec(f, db, project, r, now, false)
        == UnsubscribeRowEffect(db, UnsubscribeKey(project, r), project, r, now);
  }

  /** The four meta keys the unsubscribe handler sets. */
  const UnsubscribeKeys := {"unsubscribe_reason", "unsubscribed_at", "unsubscribe_ip", "unsubscribe_user_agent"}

  lemma UnsubscribeMetaKeys(r: Request, now: Time)
    ensures UnsubscribeMeta(r, now).Keys == UnsubscribeKeys
  {
  }

  /** The merged meta keeps every earlier key the unsubscribe does not overwrite. */
  lemma UnsubscribeKeepsMeta(s: Subscription, r: Request, now: Time, key: string)
    requires key in MetaFields(s.meta) && key !in UnsubscribeKeys
    ensures var m := UnsubscribeWithMeta(s, UnsubscribeMeta(r, now), now).meta;
            key in m.fields && m.fields[key] == MetaFields(s.meta)[key]
  {
    var kvs := UnsubscribeMeta(r, now);
    UnsubscribeMetaKeys(r, now);
    assert UnsubscribeWithMeta(s, kvs, now).meta == MergeMeta(s.meta, kvs);
  }

  /** An address not on file, or already unsubscribed, is left as it is. */
  lemma UnsubscribeNoop(f: Oracles, db: Db, project: Project, r: Request, now: Time, fault: bool)
    requires var k := UnsubscribeKey(project, r); k !in db.rows || db.rows[k].status == Status.Unsubscribed
    ensures UnsubscribeSpec(f, db, project, r, now, fault).db == db
  {
  }

  /** A second identical unsubscribe request writes nothing. */
  lemma UnsubscribeIdempotent(f: Oracles, db: Db, project: Project, r: Request, now: Time, now2: Time, fault2: bool)
    ensures var db1 := UnsubscribeSpec(f, db, project, r, now, false).db;
            UnsubscribeSpec(f, db1, project, r, now2, fault2).db == db1
  {
    var k := UnsubscribeKey(project, r);
    var db1 := UnsubscribeSpec(f, db, project, r, now, false).db;
    if UnsubscribeRuleErrors(f, r) == {} && k in db.rows && db.rows[k].status != Status.Unsubscribed {
      UnsubscribeEffect(f, db, project, r, now);
      UnsubscribeNoop(f, db1, project, r, now2, fault2);
    }
  }

  // ---------------------------------------------------------------------------------
  // Unsubscribe via link

  /** The status of the link handler's reply, case by case. */
  lemma UrlUnsubscribeStatus(f: Oracles, db: Db, projects: seq<Project>, r: Request, now: Time, crash: Option<nat>)
    ensures var e := UrlUnsubscribeSpec(f, db, projects, r, now, crash);
            var found := LinkProject(projects, r);
            && (e.reply.status == 400 <==> !LinkValid(f, r))
            && (e.reply.status == 404 <==> LinkValid(f, r) && crash != Some(0) && (found.None? || !IsActive(found.value)))
            && (e.reply.status == 200 <==> LinkValid(f, r) && (crash == Some(0) || (found.Some? && IsActive(found.value))))
  {
    if LinkValid(f, r) && crash != Some(0) {
      var found := LinkProject(projects, r);
      if found.Some? && IsActive(found.value) && crash != Some(1) {
        LinkReplyOk(db, found.value, LinkKey(found.value, r), r, now, crash);
      }
    }
  }

  lemma LinkReplyOk(db: Db, p: Project, key: Key, r: Request, now: Time, crash: Option<nat>)
    ensures LinkUnsubscribe(db, p, key, r, now, crash).reply.status == 200
  {
  }

  lemma LinkKeepsValid(db: Db, p: Project, key: Key, r: Request, now: Time, crash: Option<nat>)
    requires ValidDb(db)
    ensures ValidDb(LinkUnsubscribe(db, p, key, r, now, crash).db)
  {
    if key in db.rows && db.rows[key].status != Status.Unsubscribed {
      LinkWritesKeepValid(db, p, key, r, now, crash);
    }
  }

  /** Past the status write, the link handler's effect: the meta write and, by flag, the admin job. */
  lemma LinkWritesLate(db: Db, p: Project, key: Key, r: Request, now: Time, crash: Option<nat>)
    requires key in db.rows && crash != Some(2) && crash != Some(3)
    ensures var s := db.rows[key];
            var e := LinkWrites(db, p, key, r, now, crash);
            && e.db == db.(rows := db.rows[key := UnsubscribeWithMeta(s, ViaLinkMeta(r, now), now)],
                           queue := db.queue + (if p.adminNotifications && crash != Some(4) then [AdminJob(s.id)] else []))
            && e.reply == if p.adminNotifications && crash == Some(4) then SuccessPage(None) else SuccessPage(Some(p.id))
  {
  }

  lemma LinkWritesKeepValid(db: Db, p: Project, key: Key, r: Request, now: Time, crash: Option<nat>)
    requires ValidDb(db) && key in db.rows
    ensures ValidDb(LinkWrites(db, p, key, r, now, crash).db)
  {
    var s := db.rows[key];
    if crash == Some(3) {
      assert RowFits(db, key);
      RewriteValid(db, key, Unsubscribe(s, now));
    } else if crash != Some(2) {
      UnsubscribedRowValid(db, key, ViaLinkMeta(r, now), now, crash != Some(4) && p.adminNotifications);
    }
  }

  lemma UrlUnsubscribeKeepsValid(f: Oracles, db: Db, projects: seq<Project>, r: Request, now: Time, crash: Option<nat>)
    requires ValidDb(db)
    ensures ValidDb(UrlUnsubscribeSpec(f, db, projects, r, now, crash).db)
  {
    if LinkValid(f, r) && crash != Some(0) {
      var found := LinkProject(projects, r);
      if found.Some? && IsActive(found.value) && crash != Some(1) {
        LinkKeepsValid(db, found.value, LinkKey(found.value, r), r, now, crash);
      }
    }
  }

  /**
   * The link handler writes status, then meta, then the job, and keeps what it wrote
   * when it fails part-way: a crash after the status write leaves the row unsubscribed
   * with its old meta; one before the job insert leaves the meta written but no job.
   */
  lemma UrlUnsubscribePartialWrites(f: Oracles, db: Db, projects: seq<Project>, r: Request, now: Time, crash: Option<nat>)
    requires LinkValid(f, r)
    requires var found := LinkProject(projects, r);
             found.Some? && IsActive(found.value) &&
             var k := LinkKey(found.value, r);
             k in db.rows && db.rows[k].status != Status.Unsubscribed
    ensures var p := LinkProject(projects, r).value;
            var k := LinkKey(p, r);
            var s := db.rows[k];
            var s1 := Unsubscribe(s, now);
            var s2 := UnsubscribeWithMeta(s, ViaLinkMeta(r, now), now);
            var e := UrlUnsubscribeSpec(f, db, projects, r, now, crash);
            && (crash in {Some(0), Some(1), Some(2)} ==> e.db == db)
            && (crash == Some(3) ==> e.db == db.(rows := db.rows[k := s1]) && s1.meta == s.meta && s1.status == Status.Unsubscribed)
            && (crash == Some(4) && p.adminNotifications ==> e.db == db.(rows := db.rows[k := s2]))
            && (crash == None ==> e.db == db.(rows := db.rows[k := s2],
                                              queue := db.queue + if p.adminNotifications then [AdminJob(s.id)] else []))
            && (crash == None ==> e.reply == SuccessPage(Some(p.id)))
  {
  }

  // ---------------------------------------------------------------------------------
  // Confirmation link

  lemma ResumedRowFits(db: Db, k: Key, kvs: map<string, Json>, now: Time)
    requires ValidDb(db) && k in db.rows
    ensures var t := SubscribeWithMeta(db.rows[k], kvs, now);
            t.id == db.rows[k].id && t.projectId == k.projectId && t.email == k.email
            && MetaShaped(t.meta) && t.status == Subscribed && t.confirmedAt == Some(now)
  {
    assert RowFits(db, k);
  }

  lemma FollowUpsFor(id: nat, p: Project)
    ensures forall n :: 0 <= n < |FollowUps(id, p)| ==> FollowUps(id, p)[n].subscriptionId == id
  {
  }

  lemma ConfirmKeepsValid(db: Db, projects: seq<Project>, r: Request, now: Time, fault: bool)
    requires ValidDb(db)
    ensures ValidDb(ConfirmSpec(db, projects, r, now, fault).db)
  {
    var found := ConfirmTarget(db, Input(r, "subscription"));
    if JsonTruthy(Input(r, "subscription")) && !fault && found.Some? {
      var k := found.value;
      var s := db.rows[k];
      var project := FindById(projects, s.projectId);
      if project.Some? && IsActive(project.value) && s.status == Pending {
        ResumedRowFits(db, k, ConfirmMeta(r, now), now);
        FollowUpsFor(s.id, project.value);
        UpdateRowValid(db, k, SubscribeWithMeta(s, ConfirmMeta(r, now), now), FollowUps(s.id, project.value));
      }
    }
  }

  /**
   * Only a pending row under an active project is written: it becomes subscribed,
   * confirmed now, and the follow-up mails are queued. Every other outcome writes nothing.
   */
  lemma ConfirmWritesOnlyPending(db: Db, projects: seq<Project>, r: Request, now: Time, fault: bool)
    ensures var e := ConfirmSpec(db, projects, r, now, fault);
            var found := ConfirmTarget(db, Input(r, "subscription"));
            e.db != db ==>
              && JsonTruthy(Input(r, "subscription")) && !fault && found.Some?
              && db.rows[found.value].status == Pending
              && found.value in e.db.rows && e.db.rows[found.value].status == Subscribed
              && e.db.rows[found.value].confirmedAt == Some(now)
              && e.reply.status == 200
  {
  }

  /** A pending row under an active project is confirmed, and the reply is the success page. */
  lemma ConfirmPending(db: Db, projects: seq<Project>, r: Request, now: Time)
    requires JsonTruthy(Input(r, "subscription"))
    requires var found := ConfirmTarget(db, Input(r, "subscription"));
             found.Some? && db.rows[found.value].status == Pending &&
             var p := FindById(projects, db.rows[found.value].projectId);
             p.Some? && IsActive(p.value)
    ensures var k := ConfirmTarget(db, Input(r, "subscription")).value;
            var s := db.rows[k];
            var p := FindById(projects, s.projectId).value;
            var e := ConfirmSpec(db, projects, r, now, false);
            && e.db.rows == db.rows[k := SubscribeWithMeta(s, ConfirmMeta(r, now), now)]
            && e.db.queue == db.queue + FollowUps(s.id, p)
            && e.reply == Reply(200, Page("confirmation.success", "Your subscription has been confirmed successfully!", Some(p.id)))
  {
  }

  /** Following a confirmation link a second time shows the already-confirmed page and writes nothing. */
  lemma ConfirmTwice(db: Db, projects: seq<Project>, r: Request, now: Time, now2: Time)
    requires JsonTruthy(Input(r, "subscription"))
    requires var found := ConfirmTarget(db, Input(r, "subscription"));
             found.Some? && db.rows[found.value].status == Pending &&
             var p := FindById(projects, db.rows[found.value].projectId);
             p.Some? && IsActive(p.value)
    ensures var db1 := ConfirmSpec(db, projects, r, now, false).db;
            var e := ConfirmSpec(db1, projects, r, now2, false);
            e.db == db1 && e.reply.status == 200 && e.reply.body.Page? &&
            e.reply.body.view == "confirmation.already-confirmed"
  {
    ConfirmPending(db, projects, r, now);
    var k := ConfirmTarget(db, Input(r, "subscription")).value;
    var db1 := ConfirmSpec(db, projects, r, now, false).db;
    assert db1.ids == db.ids;
    assert ConfirmTarget(db1, Input(r, "subscription")) == Some(k);
  }

  // ---------------------------------------------------------------------------------
  // Resubscribe

  lemma ResubscribeKeepsValid(db: Db, projects: seq<Project>, id: nat, r: Request, now: Time, fault: bool)
    requires ValidDb(db)
    ensures ValidDb(ResubscribeSpec(db, projects, id, r, now, fault).db)
  {
    var found := KeyOf(db, id);
    if found.Some? {
      var k := found.value;
      var s := db.rows[k];
      var project := FindById(projects, s.projectId);
      if s.status == Status.Unsubscribed && !fault && project.Some? {
        ResumedRowFits(db, k, ResubscribeMeta(r, now), now);
        FollowUpsFor(s.id, project.value);
        UpdateRowValid(db, k, SubscribeWithMeta(s, ResubscribeMeta(r, now), now), FollowUps(s.id, project.value));
      }
    }
  }

  /**
   * Only an unsubscribed row is resubscribed, and only when its project exists and the
   * transaction commits; any other row gets 400 or 404 and nothing is written.
   */
  lemma ResubscribeGate(db: Db, projects: seq<Project>, id: nat, r: Request, now: Time, fault: bool)
    ensures var e := ResubscribeSpec(db, projects, id, r, now, fault);
            var found := KeyOf(db, id);
            && (e.db != db ==>
                  && found.Some? && db.rows[found.value].status == Status.Unsubscribed && !fault
                  && FindById(projects, db.rows[found.value].projectId).Some?
                  && e.db.rows[found.value].status == Subscribed
                  && e.db.rows[found.value].confirmedAt == Some(now))
            && (found.None? ==> e.reply == Reply(404, Empty))
            && (found.Some? && db.rows[found.value].status != Status.Unsubscribed ==> e.reply.status == 400 && e.db == db)
  {
  }

  /**
   * An unsubscribe followed by a resubscribe of the same row makes it subscribed again,
   * confirmed at the resubscribe time, under the same id.
   */
  lemma UnsubscribeThenResubscribe(f: Oracles, db: Db, projects: seq<Project>, project: Project,
                                   r: Request, r2: Request, now: Time, now2: Time)
    requires UnsubscribeRuleErrors(f, r) == {}
    requires var k := UnsubscribeKey(project, r); k in db.rows && db.rows[k].status != Status.Unsubscribed
    requires var k := UnsubscribeKey(project, r); db.rows[k].id in db.ids && db.ids[db.rows[k].id] == k
    requires FindById(projects, project.id).Some? && project.id == UnsubscribeKey(project, r).projectId
    requires db.rows[UnsubscribeKey(project, r)].projectId == project.id
    ensures var k := UnsubscribeKey(project, r);
            var db1 := UnsubscribeSpec(f, db, project, r, now, false).db;
            var e := ResubscribeSpec(db1, projects, db.rows[k].id, r2, now2, false);
            && e.db.rows[k].status == Subscribed && e.db.rows[k].confirmedAt == Some(now2)
            && e.db.rows[k].id == db.rows[k].id
            && e.reply.status == 200
  {
    UnsubscribeEffect(f, db, project, r, now);
  }

  // ---------------------------------------------------------------------------------
  // The confirmation mail job

  lemma ConfirmationJobKeepsValid(db: Db, projects: seq<Project>, id: nat, mailOk: bool, now: Time)
    requires ValidDb(db)
    ensures ValidDb(ConfirmationJobSpec(db, projects, id, mailOk, now).db)
  {
    var j := ConfirmationJobSpec(db, projects, id, mailOk, now);
    ConfirmationJobShape(db, projects, id, mailOk, now);
    if j.db != db {
      var k := KeyOf(db, id).value;
      var s := db.rows[k];
      assert RowFits(db, k);
      RewriteValid(db, k, RecordSend(s, NextAttempt(MetaFields(s.meta)).value, now));
    }
  }

  /** A confirmation run either writes nothing or records the send on the job's row. */
  lemma ConfirmationJobShape(db: Db, projects: seq<Project>, id: nat, mailOk: bool, now: Time)
    ensures var j := ConfirmationJobSpec(db, projects, id, mailOk, now);
            j.db == db ||
            (KeyOf(db, id).Some? && NextAttempt(MetaFields(db.rows[KeyOf(db, id).value].meta)).Some? &&
             var k := KeyOf(db, id).value;
             j.db == db.(rows := db.rows[k := RecordSend(db.rows[k], NextAttempt(MetaFields(db.rows[k].meta)).value, now)]))
  {
  }

  /** Only a run that sent the mail writes; skipped and failed runs leave the datastore alone. */
  lemma ConfirmationJobWritesOnlyWhenSent(db: Db, projects: seq<Project>, id: nat, mailOk: bool, now: Time)
    ensures var j := ConfirmationJobSpec(db, projects, id, mailOk, now);
            !j.outcome.Sent? ==> j.db == db
  {
  }

  /**
   * A sent confirmation mail is counted: the attempt counter in meta becomes one more
   * than before (one if there was none), and the status is untouched.
   */
  lemma ConfirmationJobCounts(db: Db, projects: seq<Project>, id: nat, mailOk: bool, now: Time)
    requires ConfirmationJobSpec(db, projects, id, mailOk, now).outcome.Sent?
    ensures var k := KeyOf(db, id).value;
            var s := db.rows[k];
            var t := ConfirmationJobSpec(db, projects, id, mailOk, now).db.rows[k];
            var before := MetaFields(s.meta);
            && s.status == Pending && t.status == Pending
            && t.meta.JObject? && AttemptsKey in t.meta.fields
            && (AttemptsKey !in before ==> t.meta.fields[AttemptsKey] == JNum(1))
            && (AttemptsKey in before && before[AttemptsKey].JNum? ==>
                  t.meta.fields[AttemptsKey] == JNum(before[AttemptsKey].n + 1))
  {
  }

  /** Once the row is confirmed, a confirmation mail job still in the queue is skipped. */
  lemma ConfirmationJobAfterConfirm(db: Db, projects: seq<Project>, r: Request, now: Time, mailOk: bool, now2: Time)
    requires JsonTruthy(Input(r, "subscription"))
    requires var found := ConfirmTarget(db, Input(r, "subscription"));
             found.Some? && db.rows[found.value].status == Pending &&
             var p := FindById(projects, db.rows[found.value].projectId);
             p.Some? && IsActive(p.value)
    requires var k := ConfirmTarget(db, Input(r, "subscription")).value;
             db.rows[k].id in db.ids && db.ids[db.rows[k].id] == k
    ensures var k := ConfirmTarget(db, Input(r, "subscription")).value;
            var db1 := ConfirmSpec(db, projects, r, now, false).db;
            ConfirmationJobSpec(db1, projects, db.rows[k].id, mailOk, now2) == JobRun(db1, Skipped)
  {
    ConfirmPending(db, projects, r, now);
  }
}
