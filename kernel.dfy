/**
 * The application serving requests: the API log table, the rate limiter's cache and the
 * subscriptions store are objects it updates in place; `Handle` runs one request through
 * the route, the middleware and the controller, and does what `Routes.App` specifies.
 */
module Kernel {
  import opened Wrappers
  import opened Text
  import opened Http
  import opened Foreign
  import opened Projects
  import opened ApiRequests
  import opened Credentials
  import opened Cors
  import opened Throttle
  import opened Lifecycle
  import opened Store
  import opened Routes

  class Application {
    /** The `api_requests` table. */
    var log: seq<LogEntry>
    const limiter: RateLimiter
    const store: Datastore

    constructor ()
      ensures log == [] && limiter.windows == map[] && store.State() == Db(map[], map[], 1, [])
      ensures fresh(limiter) && fresh(store) && Valid()
    {
      log := [];
      limiter := new RateLimiter();
      store := new Datastore();
    }

    predicate Valid()
      reads store
    {
      store.Valid()
    }

    /** One request, served as `Routes.App` says; the subscriptions stay well formed. */
    method Handle(projects: seq<Project>, f: Oracles, disposable: seq<string>, r: Request, now: Time,
                  fault: bool, logFault: bool) returns (resp: Response)
      requires Valid()
      modifies this, limiter, store
      ensures Valid() && fresh(resp)
      ensures var s := App(projects, f, disposable, old(store.State()), old(limiter.windows), r, now, fault, logFault);
              && resp.status == s.reply.status && resp.body == s.reply.body && resp.headers == s.headers
              && store.State() == s.db && limiter.windows == s.windows && log == old(log) + s.logged
    {
      if Throttled(RouteOf(r)) {
        resp := ThroughCredentials(projects, f, disposable, r, now, fault, logFault);
      } else {
        resp := Unthrottled(projects, store.State(), limiter.windows, r, now, logFault,
                            ControllerFor(f, disposable, store.State(), r, now, fault));
      }
    }

    /** The routes without credentials or throttling: health, preflight, 405 and 404. */
    static method Unthrottled(projects: seq<Project>, ghost db: Db, ghost windows: Windows, r: Request, now: Time,
                              logFault: bool, ghost handler: Project -> Effect) returns (resp: Response)
      requires !Throttled(RouteOf(r))
      ensures fresh(resp)
      ensures var s := Serve(projects, db, windows, r, now, logFault, handler);
              && resp.status == s.reply.status && resp.body == s.reply.body && resp.headers == s.headers
              && s.db == db && s.windows == windows && s.logged == []
    {
      match RouteOf(r)
      case HealthRoute =>
        resp := new Response(200, HealthOk);
      case WrongMethod =>
        resp := new Response(405, Empty);
      case NoRoute =>
        resp := new Response(404, Empty);
      case OptionsRoute =>
        resp := Preflight(Authenticate(projects, r).attached, r);
    }

    /** The credentials middleware on a throttled route, and the log entry it records on the way out. */
    method ThroughCredentials(projects: seq<Project>, f: Oracles, disposable: seq<string>, r: Request, now: Time,
                         fault: bool, logFault: bool) returns (resp: Response)
      requires Valid() && Throttled(RouteOf(r))
      modifies this, limiter, store
      ensures Valid() && fresh(resp)
      ensures var db := old(store.State());
              var s := Routes.Authenticated(projects, db, old(limiter.windows), r, now, logFault,
                                            ControllerFor(f, disposable, db, r, now, fault));
              && resp.status == s.reply.status && resp.body == s.reply.body && resp.headers == s.headers
              && store.State() == s.db && limiter.windows == s.windows && log == old(log) + s.logged
    {
      ghost var db := store.State();
      match Authenticate(projects, r)
      case Denied(reply, logged) =>
        resp := new Response(reply.status, reply.body);
        Record(r, logged, reply.status, now, logFault);
      case Admitted(p) =>
        assert ControllerFor(f, disposable, db, r, now, fault)(p) == Routes.Controller(f, disposable, db, p, r, now, fault);
        resp := ThroughCors(db, p, f, disposable, r, now, fault);
        Record(r, Some(p.id), resp.status, now, logFault);
    }

    /** `logRequest`: the entry is written unless writing it throws. */
    method Record(r: Request, projectId: Option<nat>, status: int, now: Time, logFault: bool)
      modifies this
      ensures log == old(log) + LogOf(r, projectId, status, now, logFault)
    {
      if !logFault {
        log := log + [EntryFor(r, projectId, status, now)];
      }
    }

    /** The CORS middleware on a throttled route with `p` attached. */
    method ThroughCors(ghost db: Db, p: Project, f: Oracles, disposable: seq<string>, r: Request, now: Time,
                   fault: bool) returns (resp: Response)
      requires Valid() && Throttled(RouteOf(r)) && store.State() == db
      modifies limiter, store
      ensures Valid() && fresh(resp)
      ensures var s := Routes.Guarded(db, old(limiter.windows), p, r, now, RouteOf(r),
                                      Routes.Controller(f, disposable, db, p, r, now, fault));
              && resp.status == s.reply.status && resp.body == s.reply.body && resp.headers == s.headers
              && store.State() == s.db && limiter.windows == s.windows
    {
      if Violation(Some(p), r) {
        resp := new Response(ViolationReply.status, ViolationReply.body);
        return;
      }
      ghost var effect;
      resp, effect := ThroughLimiter(db, p, f, disposable, r, now, fault);
      AddCorsHeaders(resp, Some(p), r);
    }

    /**
     * The rate limiter, then the controller when the request is under its limit; `effect`
     * is what the controller does, whether or not it runs.
     */
    method ThroughLimiter(ghost db: Db, p: Project, f: Oracles, disposable: seq<string>, r: Request, now: Time,
                          fault: bool) returns (resp: Response, ghost effect: Effect)
      requires Valid() && Throttled(RouteOf(r)) && store.State() == db
      modifies limiter, store
      ensures Valid() && fresh(resp)
      ensures effect == Routes.Controller(f, disposable, db, p, r, now, fault)
      ensures var s := Routes.Limited(db, old(limiter.windows), r, now, RouteOf(r), effect);
              && resp.status == s.reply.status && resp.body == s.reply.body && resp.headers == s.headers
              && store.State() == s.db && limiter.windows == s.windows
    {
      var max := Limit(RouteOf(r));
      var key := Signature(r);
      var retryAfter := AvailableIn(limiter.windows, key, now);
      var allowed, remaining := limiter.Attempt(key, max, now);
      if !allowed {
        effect := Routes.Controller(f, disposable, db, p, r, now, fault);
        resp := TooManyResponse(max, retryAfter, now);
        return;
      }
      resp, effect := Serviced(db, p, f, disposable, r, now, fault, max, remaining);
    }

    /** A request under its limit: the controller runs and its reply gets the limit headers. */
    method Serviced(ghost db: Db, p: Project, f: Oracles, disposable: seq<string>, r: Request, now: Time,
                    fault: bool, max: nat, remaining: nat) returns (resp: Response, ghost effect: Effect)
      requires Valid() && Throttled(RouteOf(r)) && store.State() == db
      modifies store
      ensures Valid() && fresh(resp)
      ensures effect == Routes.Controller(f, disposable, db, p, r, now, fault)
      ensures resp.status == effect.reply.status && resp.body == effect.reply.body
      ensures resp.headers == LimitHeaders(max, remaining) && store.State() == effect.db
    {
      var reply := RunController(p, f, disposable, r, now, fault);
      effect := Effect(store.State(), reply);
      resp := LimitedResponse(reply, max, remaining);
    }

    /** The route's controller action on the store. */
    method RunController(p: Project, f: Oracles, disposable: seq<string>, r: Request, now: Time, fault: bool)
      returns (reply: Reply)
      requires Valid() && Throttled(RouteOf(r))
      modifies store
      ensures Valid()
      ensures Effect(store.State(), reply) == Routes.Controller(f, disposable, old(store.State()), p, r, now, fault)
    {
      if RouteOf(r).SubscribeRoute? {
        reply := store.Subscribe(f, disposable, p, r, now, fault);
      } else {
        reply := store.Unsubscribe(f, p, r, now, fault);
      }
    }
  }

  /** The 429 answer the refusal renders to, with its four rate-limit headers. */
  method TooManyResponse(max: nat, retryAfter: nat, now: Time) returns (resp: Response)
    ensures fresh(resp)
    ensures resp.status == TooManyReply.status && resp.body == TooManyReply.body
    ensures resp.headers == RefusalHeaders(max, retryAfter, now)
  {
    resp := new Response(TooManyReply.status, TooManyReply.body);
    resp.Set(RateLimitLimit, NatText(max), true);
    resp.Set(RateLimitRemaining, NatText(0), true);
    resp.Set(RetryAfter, NatText(retryAfter), true);
    resp.Set(RateLimitReset, IntText(now + retryAfter), true);
  }

  /** The controller's answer with the limit and the attempts left set on it. */
  method LimitedResponse(reply: Reply, max: nat, remaining: nat) returns (resp: Response)
    ensures fresh(resp)
    ensures resp.status == reply.status && resp.body == reply.body
    ensures resp.headers == LimitHeaders(max, remaining)
  {
    resp := new Response(reply.status, reply.body);
    resp.Set(RateLimitLimit, NatText(max), true);
    resp.Set(RateLimitRemaining, NatText(remaining), true);
  }
}
