/**
 * The API route table and what a request goes through on each route: the health check
 * has no middleware; the OPTIONS catch-all goes through the credentials middleware
 * (which only attaches a project) and the CORS middleware (which answers the
 * preflight); the two POST routes go through credentials, CORS, the rate limiter and
 * the controller, and the credentials middleware records one log entry on the way out.
 */
module Routes {
  import opened Wrappers
  import opened Text
  import opened Http
  import opened Foreign
  import opened Projects
  import opened ApiRequests
  import opened Credentials
  import opened Cors
  import opened Throttle
  import opened Lifecycle

  const HealthPath := "api/v1/health"
  const SubscriptionsPath := "api/v1/subscriptions"
  const UnsubscribePath := "api/v1/unsubscribe"
  const OptionsPrefix := "api/v1/"

  /** The route a request matches. */
  datatype Endpoint =
    | HealthRoute
    | OptionsRoute
    | SubscribeRoute
    | UnsubscribeRoute
    | WrongMethod
    | NoRoute

  /** A path the `OPTIONS v1/{any}` route matches, its `{any}` being `.*`. */
  predicate UnderPrefix(path: string) {
    |path| > |OptionsPrefix| && path[..|OptionsPrefix|] == OptionsPrefix
  }

  /**
   * The route table: GET (and so HEAD) on the health path, OPTIONS on anything under the
   * prefix, POST on the two API paths. The OPTIONS catch-all matches every path under the
   * prefix, so another method on such a path finds a route under a different verb and is
   * refused with 405; a path outside the prefix gets 404.
   */
  function RouteOf(r: Request): (e: Endpoint)
    ensures e.HealthRoute? <==> (Method(r) == "GET" || Method(r) == "HEAD") && r.path == HealthPath
    ensures e.OptionsRoute? <==> Method(r) == "OPTIONS" && UnderPrefix(r.path)
    ensures e.SubscribeRoute? <==> Method(r) == "POST" && r.path == SubscriptionsPath
    ensures e.UnsubscribeRoute? <==> Method(r) == "POST" && r.path == UnsubscribePath
    ensures e.NoRoute? <==> !UnderPrefix(r.path)
  {
    var m := Method(r);
    KnownPathsUnderPrefix();
    if (m == "GET" || m == "HEAD") && r.path == HealthPath then HealthRoute
    else if m == "OPTIONS" && UnderPrefix(r.path) then OptionsRoute
    else if m == "POST" && r.path == SubscriptionsPath then SubscribeRoute
    else if m == "POST" && r.path == UnsubscribePath then UnsubscribeRoute
    else if UnderPrefix(r.path) then WrongMethod
    else NoRoute
  }

  /** The three named routes lie under the prefix. */
  lemma KnownPathsUnderPrefix()
    ensures UnderPrefix(HealthPath) && UnderPrefix(SubscriptionsPath) && UnderPrefix(UnsubscribePath)
  {
    assert HealthPath[..|OptionsPrefix|] == OptionsPrefix;
    assert SubscriptionsPath[..|OptionsPrefix|] == OptionsPrefix;
    assert UnsubscribePath[..|OptionsPrefix|] == OptionsPrefix;
  }

  predicate Throttled(e: Endpoint) {
    e.SubscribeRoute? || e.UnsubscribeRoute?
  }

  /** `throttle:30,1` on subscribing and `throttle:10,1` on unsubscribing. */
  function Limit(e: Endpoint): (n: nat)
    requires Throttled(e)
    ensures n > 0
  {
    if e.SubscribeRoute? then 30 else 10
  }

  /**
   * What serving one request yields: the reply, the header bag the middleware wrote, the
   * subscriptions and job queue, the limiter's windows, and the log entries recorded.
   */
  datatype Served = Served(reply: Reply, headers: Headers, db: Db, windows: Windows, logged: seq<LogEntry>)

  /** `logRequest`: one entry, or none when writing it throws (the exception is swallowed). */
  function LogOf(r: Request, projectId: Option<nat>, status: int, now: Time, logFault: bool): seq<LogEntry> {
    if logFault then [] else [EntryFor(r, projectId, status, now)]
  }

  /**
   * The rate limiter and the controller: a signature at its limit gets the 429 answer and
   * changes nothing; otherwise it counts one hit and the controller's `effect` (its reply
   * and the subscriptions it leaves) takes place, the reply with the limit headers.
   */
  function Limited(db: Db, windows: Windows, r: Request, now: Time, e: Endpoint, effect: Effect): Served
    requires Throttled(e)
  {
    var max := Limit(e);
    var key := Signature(r);
    if TooMany(windows, key, max, now) then
      Served(TooManyReply, RefusalHeaders(max, AvailableIn(windows, key, now), now), db, windows, [])
    else
      var w := Hit(windows, key, now);
      Served(effect.reply, LimitHeaders(max, max - Attempts(w, key, now)), effect.db, w, [])
  }

  /**
   * The CORS middleware on a throttled route with project `p` attached: a disallowed
   * origin is answered 403 before anything else runs; otherwise the CORS and security
   * headers are added to whatever comes back, the 429 answer included.
   */
  function Guarded(db: Db, windows: Windows, p: Project, r: Request, now: Time, e: Endpoint,
                   effect: Effect): Served
    requires Throttled(e)
  {
    if Violation(Some(p), r) then Served(ViolationReply, map[], db, windows, [])
    else
      var inner := Limited(db, windows, r, now, e, effect);
      inner.(headers := CorsHeaders(inner.headers, CorsAllows(Some(p), Origin(r)), AllowOriginValue(Some(p), Origin(r))))
  }

  /** The credentials middleware on a throttled route, with the log entry it records. */
  function Authenticated(projects: seq<Project>, db: Db, windows: Windows, r: Request, now: Time,
                         logFault: bool, handler: Project -> Effect): Served
    requires Throttled(RouteOf(r))
  {
    match Authenticate(projects, r)
    case Denied(reply, logged) => Served(reply, map[], db, windows, LogOf(r, logged, reply.status, now, logFault))
    case Admitted(p) =>
      var s := Guarded(db, windows, p, r, now, RouteOf(r), handler(p));
      s.(logged := LogOf(r, Some(p.id), s.reply.status, now, logFault))
    case PassOptions(_) => assert false; Served(Reply(204, Empty), map[], db, windows, [])
  }

  /**
   * One request through the routes and middleware, for any controller: `handler(p)` is
   * what the route's controller does for project `p` on the subscriptions `db`, and
   * `logFault` an exception while writing the log entry.
   */
  function Serve(projects: seq<Project>, db: Db, windows: Windows, r: Request, now: Time, logFault: bool,
                 handler: Project -> Effect): Served
  {
    match RouteOf(r)
    case HealthRoute => Served(Reply(200, HealthOk), map[], db, windows, [])
    case OptionsRoute =>
      var attached := Authenticate(projects, r).attached;
      if CorsAllows(attached, Origin(r)) then
        Served(Reply(204, Empty), PreflightHeaders(attached, Origin(r)), db, windows, [])
      else Served(Reply(403, Empty), map[], db, windows, [])
    case SubscribeRoute => Authenticated(projects, db, windows, r, now, logFault, handler)
    case UnsubscribeRoute => Authenticated(projects, db, windows, r, now, logFault, handler)
    case WrongMethod => Served(Reply(405, Empty), map[], db, windows, [])
    case NoRoute => Served(Reply(404, Empty), map[], db, windows, [])
  }

  /**
   * The controller action a route runs: `SubscriptionController::store` on the
   * subscriptions route, `UnsubscribeController::store` otherwise; `fault` is an
   * exception inside its transaction.
   */
  function Controller(f: Oracles, disposable: seq<string>, db: Db, p: Project, r: Request, now: Time,
                      fault: bool): Effect
  {
    if RouteOf(r).SubscribeRoute? then SubscribeSpec(f, disposable, db, p, r, now, fault)
    else UnsubscribeSpec(f, db, p, r, now, fault)
  }

  /** The controller of the request's route, as a handler of the project the credentials attach. */
  function ControllerFor(f: Oracles, disposable: seq<string>, db: Db, r: Request, now: Time,
                         fault: bool): Project -> Effect
  {
    p => Controller(f, disposable, db, p, r, now, fault)
  }

  /** One request through the application. */
  function App(projects: seq<Project>, f: Oracles, disposable: seq<string>, db: Db, windows: Windows,
               r: Request, now: Time, fault: bool, logFault: bool): Served
  {
    Serve(projects, db, windows, r, now, logFault, ControllerFor(f, disposable, db, r, now, fault))
  }

  // ---------------------------------------------------------------------------------
  // What the pipeline guarantees

  /** The project the credentials name, when both headers are truthy and it exists. */
  function CreditedId(projects: seq<Project>, r: Request): Option<nat> {
    match Credited(projects, r)
    case Some(p) => Some(p.id)
    case None => None
  }

  /** Requests off the two throttled routes touch no state and are never logged. */
  lemma UnthrottledRoutesTouchNothing(projects: seq<Project>, db: Db, windows: Windows, r: Request,
      now: Time, logFault: bool, handler: Project -> Effect)
    requires !Throttled(RouteOf(r))
    ensures Serve(projects, db, windows, r, now, logFault, handler).db == db
    ensures Serve(projects, db, windows, r, now, logFault, handler).windows == windows
    ensures Serve(projects, db, windows, r, now, logFault, handler).logged == []
  {
  }

  /** The health check answers `{"ok": true}` with no credentials, CORS or security headers. */
  lemma HealthIsBare(projects: seq<Project>, db: Db, windows: Windows, r: Request,
      now: Time, logFault: bool, handler: Project -> Effect)
    requires Method(r) == "GET" && r.path == HealthPath
    ensures Serve(projects, db, windows, r, now, logFault, handler).reply == Reply(200, HealthOk)
    ensures Serve(projects, db, windows, r, now, logFault, handler).headers == map[]
  {
  }

  /**
   * A preflight never reaches a handler: it answers 204 exactly when the credentials
   * name an active project whose list admits the origin (or there is no origin), and
   * 403 otherwise, always with an empty body.
   */
  lemma PreflightOutcome(projects: seq<Project>, db: Db, windows: Windows, r: Request,
      now: Time, logFault: bool, handler: Project -> Effect)
    requires RouteOf(r) == OptionsRoute
    ensures Serve(projects, db, windows, r, now, logFault, handler).reply.body == Empty
    ensures Serve(projects, db, windows, r, now, logFault, handler).reply.status == 204 <==>
            Credited(projects, r).Some? && IsActive(Credited(projects, r).value) &&
            CorsAllows(Credited(projects, r), Origin(r))
    ensures Serve(projects, db, windows, r, now, logFault, handler).reply.status != 204 ==>
            Serve(projects, db, windows, r, now, logFault, handler).reply.status == 403
  {
  }

  /**
   * Every request on a throttled route is logged once, with the status it got and the
   * project its credentials name (none when they name none), unless writing the entry
   * throws.
   */
  lemma OneLogEntryPerApiRequest(projects: seq<Project>, db: Db, windows: Windows, r: Request,
      now: Time, logFault: bool, handler: Project -> Effect)
    requires Throttled(RouteOf(r))
    ensures var s := Serve(projects, db, windows, r, now, logFault, handler);
            s.logged == if logFault then [] else [EntryFor(r, CreditedId(projects, r), s.reply.status, now)]
  {
  }

  /** A failure to write the log entry changes nothing but the log. */
  lemma LogFaultInvisible(projects: seq<Project>, db: Db, windows: Windows, r: Request,
      now: Time, handler: Project -> Effect)
    ensures Serve(projects, db, windows, r, now, true, handler) ==
            Serve(projects, db, windows, r, now, false, handler).(logged := [])
  {
  }

  /**
   * A request the credentials or CORS middleware refuses reaches neither the rate
   * limiter nor the controller, and its answer carries no CORS headers.
   */
  lemma RefusedBeforeThrottle(projects: seq<Project>, db: Db, windows: Windows, r: Request,
      now: Time, logFault: bool, handler: Project -> Effect)
    requires Throttled(RouteOf(r))
    requires !Authenticate(projects, r).Admitted? || Violation(Some(Authenticate(projects, r).project), r)
    ensures Serve(projects, db, windows, r, now, logFault, handler).db == db
    ensures Serve(projects, db, windows, r, now, logFault, handler).windows == windows
    ensures Serve(projects, db, windows, r, now, logFault, handler).headers == map[]
    ensures Serve(projects, db, windows, r, now, logFault, handler).reply.status in {401, 403}
  {
  }

  /**
   * The subscriptions change only for a request that was admitted, passed the origin
   * check and was under its limit.
   */
  lemma StateChangesOnlyWhenAdmitted(projects: seq<Project>, db: Db, windows: Windows, r: Request,
      now: Time, logFault: bool, handler: Project -> Effect)
    requires Serve(projects, db, windows, r, now, logFault, handler).db != db
    ensures Throttled(RouteOf(r)) && Authenticate(projects, r).Admitted?
    ensures !Violation(Some(Authenticate(projects, r).project), r)
    ensures !TooMany(windows, Signature(r), Limit(RouteOf(r)), now)
  {
  }

  /** No rate-limit header is one of the security headers. */
  lemma SecurityNotRefusal(max: nat, retryAfter: nat, now: Time, n: nat)
    requires n < |SecurityHeaders|
    ensures SecurityHeaders[n].0 !in RefusalHeaders(max, retryAfter, now)
  {
    assert IsSecurityHeader(SecurityHeaders[n].0);
  }

  /** The 429 headers after the CORS middleware: `Vary`, each security header and `Retry-After`. */
  lemma RefusalHeadersThroughCors(max: nat, retryAfter: nat, now: Time, allowed: bool, allowOrigin: string, n: nat)
    requires n < |SecurityHeaders|
    ensures var h := CorsHeaders(RefusalHeaders(max, retryAfter, now), allowed, allowOrigin);
            && Vary in h && h[Vary] == ["Origin"]
            && SecurityHeaders[n].0 in h && h[SecurityHeaders[n].0] == [SecurityHeaders[n].1]
            && RetryAfter in h && h[RetryAfter] == [NatText(retryAfter)]
  {
    var base := RefusalHeaders(max, retryAfter, now);
    assert Vary !in base && RetryAfter in base && base[RetryAfter] == [NatText(retryAfter)];
    CorsHeadersVary(base, allowed, allowOrigin);
    CorsHeadersKeep(base, allowed, allowOrigin, RetryAfter);
    SecurityNotRefusal(max, retryAfter, now, n);
    CorsHeadersSecurity(base, allowed, allowOrigin, n);
  }

  /**
   * A 429 answer still passes back through the CORS middleware: it carries `Vary:
   * Origin`, the security headers and the seconds to wait, which are positive.
   */
  lemma RefusalCarriesHeaders(projects: seq<Project>, db: Db, windows: Windows, r: Request,
      now: Time, logFault: bool, handler: Project -> Effect, n: nat)
    requires Throttled(RouteOf(r)) && Authenticate(projects, r).Admitted?
    requires !Violation(Some(Authenticate(projects, r).project), r)
    requires TooMany(windows, Signature(r), Limit(RouteOf(r)), now)
    requires n < |SecurityHeaders|
    ensures var h := Serve(projects, db, windows, r, now, logFault, handler).headers;
            && Vary in h && h[Vary] == ["Origin"]
            && SecurityHeaders[n].0 in h && h[SecurityHeaders[n].0] == [SecurityHeaders[n].1]
            && RetryAfter in h && h[RetryAfter] == [NatText(AvailableIn(windows, Signature(r), now))]
            && AvailableIn(windows, Signature(r), now) > 0
  {
    var p := Authenticate(projects, r).project;
    var ra := AvailableIn(windows, Signature(r), now);
    var allowed := CorsAllows(Some(p), Origin(r));
    var allowOrigin := AllowOriginValue(Some(p), Origin(r));
    assert Serve(projects, db, windows, r, now, logFault, handler).headers ==
           CorsHeaders(RefusalHeaders(Limit(RouteOf(r)), ra, now), allowed, allowOrigin);
    RefusalHeadersThroughCors(Limit(RouteOf(r)), ra, now, allowed, allowOrigin, n);
  }

  /**
   * An admitted request that passes the origin check and is under its limit reaches the
   * controller: it gets the controller's reply and the subscriptions it leaves, and
   * counts one hit.
   */
  lemma HandlerReached(projects: seq<Project>, db: Db, windows: Windows, r: Request,
      now: Time, logFault: bool, handler: Project -> Effect)
    requires Throttled(RouteOf(r)) && Authenticate(projects, r).Admitted?
    requires !Violation(Some(Authenticate(projects, r).project), r)
    requires !TooMany(windows, Signature(r), Limit(RouteOf(r)), now)
    ensures var effect := handler(Authenticate(projects, r).project);
            && Serve(projects, db, windows, r, now, logFault, handler).reply == effect.reply
            && Serve(projects, db, windows, r, now, logFault, handler).db == effect.db
            && Serve(projects, db, windows, r, now, logFault, handler).windows == Hit(windows, Signature(r), now)
  {
  }

  /** On the subscriptions route the controller is the subscribe action, on the other the unsubscribe one. */
  lemma ControllerRunsWhenAdmitted(projects: seq<Project>, f: Oracles, disposable: seq<string>, db: Db,
      windows: Windows, r: Request, now: Time, fault: bool, logFault: bool)
    requires Throttled(RouteOf(r)) && Authenticate(projects, r).Admitted?
    requires !Violation(Some(Authenticate(projects, r).project), r)
    requires !TooMany(windows, Signature(r), Limit(RouteOf(r)), now)
    ensures var p := Authenticate(projects, r).project;
            var effect := if RouteOf(r).SubscribeRoute? then SubscribeSpec(f, disposable, db, p, r, now, fault)
                          else UnsubscribeSpec(f, db, p, r, now, fault);
            && App(projects, f, disposable, db, windows, r, now, fault, logFault).reply == effect.reply
            && App(projects, f, disposable, db, windows, r, now, fault, logFault).db == effect.db
  {
    var handler := ControllerFor(f, disposable, db, r, now, fault);
    HandlerReached(projects, db, windows, r, now, logFault, handler);
  }
}
