# email-collector: a Dafny model of the subscription API and its administration

email-collector is a Laravel application. It collects newsletter subscriptions for
projects that embed a form on their own sites. This project models in Dafny what the
application does with a request and with its data:

- **The API pipeline.** `routes/api.php` sends every request through up to four stages.
  The credentials middleware checks `X-Project-ID` / `X-Api-Key` against the projects
  table, attaches the project and logs the request. The CORS middleware checks the
  request's `Origin` against the project's allowed origins and answers the preflight.
  The rate limiter (`throttle:30,1` on subscribing, `throttle:10,1` on unsubscribing)
  applies next, and the controller runs last. This is the order in which the route file
  lists them; the model assumes the middleware runs in that order (see Left out).
- **The subscription lifecycle.** A subscription moves through pending, subscribed,
  unsubscribed and bounced. It is driven by:
  - the subscribe and unsubscribe endpoints;
  - the signed unsubscribe link;
  - the confirmation link;
  - the resubscribe action;
  - the three queued mail jobs, which re-check their guards when they run.
- **The model helpers.**
  - email normalisation and `validateEmail`;
  - IP masking;
  - the status-code classes and analytics of the request log;
  - the origin matcher;
  - the daily chart fill.
- **The dashboard's project actions.** These are create with the per-user project
  limit, update, deactivate and key regeneration, together with the textarea parser
  for allowed origins.

The `subscriptions` table, the job queue, the request log, the rate limiter's cache
and the projects table are objects updated in place:

- `Store.Datastore`
- `Kernel.Application`
- `Throttle.RateLimiter`
- `ProjectAdmin.ProjectTable`

Each method that changes them is proved against a function in `Lifecycle`, `Routes` or
`ProjectAdmin`. The lemmas about those functions state what the application promises:

- every handler keeps the datastore invariant, which covers the unique
  `(project_id, email)` index, normalised emails and jobs that name existing rows;
- a rolled-back transaction writes nothing;
- repeating a subscribe, an unsubscribe or a confirmation is harmless;
- the unsubscribe reply does not reveal whether the address was on file;
- only an admitted request reaches the limiter or the controller, with the stages in
  the order the route file lists them;
- a burst gets exactly N requests through;
- the edit form shows the allowed origins in a form that parses back to the same list.

Foreign predicates are parameters (`Foreign.Oracles`); every property holds for every
choice of them. These are PHP's `filter_var` email and IP checks and Laravel's `email`
and `url` rules. The clock (`now`), the random draws (`Str::random`, the ULID) and the
failure of a database statement or of the mail transport are parameters too.

Modules follow the program's structure, one module per `.dfy` file:

| module | what it models |
|---|---|
| `Wrappers` | `Option` |
| `Text` | PHP string built-ins |
| `Http` | requests, JSON input and responses |
| `Foreign` | the foreign predicates |
| `Projects` | `Project` |
| `Subscriptions` | `Subscription` |
| `Masking` | the masked-IP accessors |
| `ApiRequests` | `ApiRequest` |
| `Credentials` | `ValidateProjectCredentials` |
| `Cors` | `ProjectCors` |
| `Throttle` | the `throttle` middleware |
| `Jobs` | the three jobs |
| `Lifecycle` | the controllers as functions on the datastore |
| `LifecycleLemmas` | their properties |
| `Store` | the datastore class |
| `Routes` | the route table and the pipeline as functions |
| `Kernel` | the application class |
| `ProjectAdmin` | `ProjectController`'s create, update, destroy and key actions and its origin parser |

## Model

| member | source | states |
|---|---|---|
| Subscriptions.StatusNamesDistinct | app/Models/Subscription.php:32-35 | the four status constants are four distinct strings |
| Subscriptions.NormalizeEmail | app/Models/Subscription.php:191 | `strtolower(trim(..))` yields a normal email (trimmed, no capitals), never longer than the input, and leaves a normal email unchanged |
| Subscriptions.NormalizeIdempotent | app/Models/Subscription.php:44-47 | normalising twice is normalising once |
| Subscriptions.Creating | app/Models/Subscription.php:44-47 | the `creating` hook normalises the email and changes nothing else |
| Subscriptions.Updating | app/Models/Subscription.php:49-57 | the `updating` hook normalises the email and changes `confirmed_at` only when the status becomes subscribed with no `confirmed_at`, setting it to now |
| Subscriptions.Save | app/Models/Subscription.php:49-57 | a save with no changed attribute fires no hook and leaves the row as it was; otherwise the `updating` hook applies |
| Subscriptions.SaveKeepsNormalEmail | app/Models/Subscription.php:49-57 | saving a row with a normal email keeps the email unchanged |
| Subscriptions.Subscribe | app/Models/Subscription.php:103-108 | `subscribe()`: status subscribed, `confirmed_at` now, every other field kept |
| Subscriptions.Unsubscribe | app/Models/Subscription.php:113-117 | `unsubscribe()`: status unsubscribed, `confirmed_at` and every other field kept |
| Subscriptions.MarkAsBounced | app/Models/Subscription.php:122-126 | `markAsBounced()`: status bounced, everything else kept |
| Subscriptions.WithMeta | app/Models/Subscription.php:49-57 | `update(['meta' => ..])` replaces the meta and keeps status and `confirmed_at` |
| Subscriptions.MergeMeta | app/Http/Controllers/Api/UnsubscribeController.php:107-113 | merging keys into the old meta (an empty object when there is none): each new key has its new value, every old key not overwritten survives, and the key set is the union |
| Subscriptions.EmailVerdict | app/Models/Subscription.php:189-218 | `validateEmail` returns the normalised email with the checks applied to it |
| Subscriptions.EmailChecks | app/Models/Subscription.php:195-217 | the verdict's email is the checked email |
| Subscriptions.EmailVerdictErrors | app/Models/Subscription.php:195-217 | the verdict is valid iff there are no errors; each of the three errors (format, pattern, disposable domain) is present iff its check fails |
| Subscriptions.ValidateEmail | app/Models/Subscription.php:189-218 | the method computes `EmailVerdict` |
| Subscriptions.CheckNormalized | app/Models/Subscription.php:195-217 | the method's sequence of checks computes `EmailChecks` |
| Subscriptions.RfcShapeIsSplitShape | app/Models/Subscription.php:201-204 | the anchored regular expression of the second check holds exactly for a local part, one `@`, and a domain whose last label is at least two letters |
| Masking.MaskIp | app/Models/Subscription.php:165-184 | the masked IP is "Unknown" exactly for a falsy address or one that is neither IPv4 nor IPv6 |
| Masking.Ipv4Mask | app/Models/ApiRequest.php:84-103 | an IPv4 address `a.b.c.d` is shown as `a.b.***.d` |
| Masking.Ipv6Mask | app/Models/ApiRequest.php:97-100 | an IPv6 address `a:b:c:rest` (groups `a`, `b`, `c` without `:`) is shown as `a:b:c:***` |
| Masking.Ipv6MaskShort | app/Models/ApiRequest.php:97-100 | an IPv6 address with at most three groups is shown whole, followed by `:***` |
| ApiRequests.Creating | app/Models/ApiRequest.php:41-45 | the `creating` hook sets `created_at` to now only when it is unset |
| ApiRequests.CreatingIdempotent | app/Models/ApiRequest.php:41-45 | firing the hook again keeps the first timestamp |
| ApiRequests.LogRequest | app/Models/ApiRequest.php:59-79 | the stored entry has the method upper-cased, `created_at` now, and every other column as given |
| ApiRequests.UpperIdempotent | app/Models/ApiRequest.php:74 | a method that is already upper case is stored unchanged |
| ApiRequests.IsFailed | app/Models/ApiRequest.php:116-127 | a failed status is a client or server error and never a success |
| ApiRequests.ClassesExclusive | app/Models/ApiRequest.php:108-127 | success, client error and server error are pairwise exclusive |
| ApiRequests.Selected | app/Models/ApiRequest.php:221-228 | the selected entries are exactly the log's entries of the project since the start time |
| ApiRequests.CountSuccessful | app/Models/ApiRequest.php:132-135 | the successful count is at most the number of rows |
| ApiRequests.CountFailed | app/Models/ApiRequest.php:140-143 | the failed count is at most the number of rows |
| ApiRequests.SuccessfulPlusFailed | app/Models/ApiRequest.php:229-234 | successful plus failed never exceeds the total |
| ApiRequests.IpsAtMostRows | app/Models/ApiRequest.php:229-234 | there are no more distinct IPs than rows |
| ApiRequests.IpsAreRowIps | app/Models/ApiRequest.php:229-234 | an IP is counted iff some row carries it |
| ApiRequests.AnalyticsBounds | app/Models/ApiRequest.php:221-238 | the analytics summary is consistent: successful + failed <= total, unique IPs <= total, total <= log size |
| ApiRequests.FillDays | app/Models/ApiRequest.php:257-266 | one entry per day of the window, oldest first, ending today; each day's count is the stored count or 0 (the project page's chart, app/Http/Controllers/ProjectController.php lines 399-406, fills its days the same way) |
| ApiRequests.FilledDaysConsecutive | app/Models/ApiRequest.php:257-266 | the filled days are consecutive and the last one is today |
| Projects.OriginEntries | app/Models/Project.php:89-101 | no entries when the column is null or an empty list; otherwise the list as stored |
| Projects.IsOriginAllowed | app/Models/Project.php:87-124 | the method's loop computes `OriginAllowed`: it is true iff some entry, lower-cased, is `*`, equals the origin, or holds a `*` and matches the origin by the pattern as written, where `*` stands for a run of dots (see Findings) |
| Projects.OriginCaseIgnored | app/Models/Project.php:104-108 | the verdict does not depend on the origin's letter case |
| Projects.StarEntryAdmitsAll | app/Models/Project.php:110-112 | a `*` entry admits every origin |
| Projects.ExactEntryAdmits | app/Models/Project.php:110-112 | an entry equal to the origin up to case admits it |
| Projects.AllowedByOrderFree | app/Models/Project.php:104-124 | the verdict depends only on the set of entries, not their order |
| Projects.EntryWithoutStarIsExact | app/Models/Project.php:110-120 | an entry without `*` admits exactly the origins equal to it up to case |
| Projects.StarMatchesOnlyDots | app/Models/Project.php:115-120 | as written, the wildcard pattern is built by escaping the entry and turning `\*` into `\.*`, so a lone `*` matches only strings of dots |
| Projects.SubdomainPatternRejectsSubdomain | app/Models/Project.php:115-120 | as written, `*.example.com` does not admit `https://sub.example.com` |
| Projects.SubdomainPatternAdmitsDotDomain | app/Models/Project.php:115-120 | as written, `*.example.com` admits `.example.com` |
| Projects.LiteralMatchesItself | app/Models/Project.php:115-120 | with the intended pattern, a part of the entry without `*` matches exactly itself |
| Projects.StarSuffixMatch | app/Models/Project.php:115-120 | with the intended pattern, `*` then a literal suffix matches exactly the texts that end with the suffix and have no newline before it |
| Projects.StarEntryAdmitsSuffix | app/Models/Project.php:115-120 | with the intended pattern, an entry `*` + suffix admits every origin that is a newline-free prefix followed by the suffix |
| Projects.SubdomainPatternAdmitsSubdomain | app/Models/Project.php:115-120 | with the intended pattern, `*.example.com` admits `https://sub.example.com` |
| Projects.FindByCredentials | app/Http/Middleware/ValidateProjectCredentials.php:57-58 | the lookup gives the first row with both the public id and the key, or nothing iff no row has both |
| Projects.FindByPublicId | app/Http/Controllers/Api/UnsubscribeController.php:212 | the first row with the public id, or nothing iff none has it |
| Projects.FindById | app/Http/Controllers/ConfirmSubscriptionController.php:32 | a row with the id, or nothing iff none has it |
| Projects.GenerateApiKey | app/Models/Project.php:57-64 | the key is `nlc_` plus a 56-character draw, 60 characters long, and held by no stored row: the first draw not already taken |
| Projects.Creating | app/Models/Project.php:41-51 | the `creating` hook fills a falsy public id with the ULID, a falsy key with a fresh generated key and a falsy slug with `slug-suffix`, and keeps what is already set |
| Credentials.Authenticate | app/Http/Middleware/ValidateProjectCredentials.php:24-88 | OPTIONS passes, with an attached project only if it is active; an admitted request carries the active project its credentials name; every refusal is 401 or 403 |
| Credentials.AdmittedIff | app/Http/Middleware/ValidateProjectCredentials.php:57-79 | a non-OPTIONS request is admitted with `p` iff both headers are truthy, they name `p`, and `p` is active |
| Credentials.MissingHeadersRejected | app/Http/Middleware/ValidateProjectCredentials.php:48-54 | a non-OPTIONS request gets the 401 "missing credentials" answer iff a header is missing or falsy |
| Credentials.InvalidCredentialsIndistinguishable | app/Http/Middleware/ValidateProjectCredentials.php:57-67 | a wrong public id and a wrong key get the same 401, with no project logged |
| Credentials.SuspendedRejected | app/Http/Middleware/ValidateProjectCredentials.php:70-76 | valid credentials of an inactive project get 403 "suspended", logged against the project |
| Credentials.GetRelevantHeaders | app/Http/Middleware/ValidateProjectCredentials.php:118-146 | the method's loop keeps exactly the allow-listed headers |
| Credentials.RelevantFilters | app/Http/Middleware/ValidateProjectCredentials.php:118-146 | a header is kept iff it is present and allow-listed, with its values; the API key, authorization and cookie headers are never logged |
| Credentials.EntryFor | app/Http/Middleware/ValidateProjectCredentials.php:94-113 | the log entry records the project, status, IP, `/`-prefixed path, upper-cased method, allow-listed headers and now |
| Http.Header | app/Http/Middleware/ValidateProjectCredentials.php:44-45 | `$request->header(k)` is the first value of the header when there is one, and null otherwise |
| Http.Response.constructor | app/Http/Middleware/ProjectCors.php:50-52 | a new response has the given status and body and no headers |
| Http.Response.Set | app/Http/Middleware/ProjectCors.php:54-75 | `headers->set` replaces or appends the one header and changes nothing else |
| Cors.AllowOriginValue | app/Http/Middleware/ProjectCors.php:54-63 | the allow-origin value is `*` iff the project lists `*` or the origin is `*` |
| Cors.NoProjectNoOrigin | app/Http/Middleware/ProjectCors.php:125-130 | without an attached project no origin is allowed |
| Cors.CorsAllows | app/Http/Middleware/ProjectCors.php:125-142 | no project allows nothing; a project allows a missing or falsy origin; otherwise the verdict is `Projects.OriginAllowed` of the origin, whose case does not matter |
| Cors.Violation | app/Http/Middleware/ProjectCors.php:27-32 | the request is refused with 403 iff it carries a truthy `Origin` and either no project is attached or the project does not allow that origin |
| Cors.NoOriginAllowed | app/Http/Middleware/ProjectCors.php:125-142 | a request without an `Origin` header from a project is allowed and is no violation |
| Cors.Preflight | app/Http/Middleware/ProjectCors.php:44-76 | an allowed preflight gets 204 with the CORS headers; otherwise 403 with none; the body is empty |
| Cors.PreflightAllowOrigin | app/Http/Middleware/ProjectCors.php:54-63 | the preflight echoes the origin unless the project lists `*` |
| Cors.AddSecurityHeaders | app/Http/Middleware/ProjectCors.php:147-160 | the five security headers are set without replacing, and status and body are kept |
| Cors.SetAllKeepsOthers | app/Http/Middleware/ProjectCors.php:147-160 | setting headers leaves every other header as it was |
| Cors.SetAllAppendsAt | app/Http/Middleware/ProjectCors.php:147-160 | a header set without replacing gains the value after its earlier ones |
| Cors.SecurityHeadersPresent | app/Http/Middleware/ProjectCors.php:147-160 | after `addSecurityHeaders` each security header is present with its value appended |
| Cors.SecurityHeadersKeepOthers | app/Http/Middleware/ProjectCors.php:147-160 | `addSecurityHeaders` leaves every other header alone |
| Cors.IsSecurityHeader | app/Http/Middleware/ProjectCors.php:147-160 | a header is a security header iff it is one of the five set |
| Cors.AddCorsHeaders | app/Http/Middleware/ProjectCors.php:81-120 | the response's headers become `CorsHeaders` of the old ones; status and body are kept |
| Cors.CorsHeadersVary | app/Http/Middleware/ProjectCors.php:87 | `Vary: Origin` is always appended |
| Cors.CorsHeadersAllow | app/Http/Middleware/ProjectCors.php:90-114 | only an allowed origin gets the allow-origin header (with the computed value); otherwise none is set |
| Cors.CorsHeadersExpose | app/Http/Middleware/ProjectCors.php:90-114 | an allowed origin gets `Access-Control-Expose-Headers: Content-Length, Content-Type, X-Subscription-ID` and `Allow-Credentials: false` |
| Cors.CorsHeadersKeep | app/Http/Middleware/ProjectCors.php:81-120 | headers that are neither CORS nor security headers are kept |
| Cors.CorsHeadersSecurity | app/Http/Middleware/ProjectCors.php:117 | every response through the middleware carries the security headers |
| Cors.AllowOriginEcho | app/Http/Middleware/ProjectCors.php:54-63 | with an origin present, the value is `*` for a wildcard project and the origin itself otherwise |
| Throttle.Attempts | routes/api.php:38 | an expired or missing window counts 0 |
| Throttle.Hit | routes/api.php:38 | a hit counts one more in a live window, or starts a one-minute window of one; other signatures are untouched |
| Throttle.AvailableIn | routes/api.php:38 | the seconds to wait are positive iff the window is live |
| Throttle.Step | routes/api.php:38-42 | a request goes on iff the signature is not at its limit in a live window; it then counts a hit, otherwise nothing changes |
| Throttle.RefusalIsStable | routes/api.php:38-42 | once refused, every later attempt in the same window is refused |
| Throttle.OtherSignaturesUnaffected | routes/api.php:38-42 | one client's attempts neither see nor change another's counter |
| Throttle.Run | routes/api.php:38-42 | a run of attempts has one verdict per attempt |
| Throttle.RunInWindow | routes/api.php:38-42 | in a live window holding h hits, attempt i goes on iff h + i < max |
| Throttle.BurstAllowsExactlyMax | routes/api.php:38-42 | a burst inside one fresh minute lets exactly the first max requests through (30 subscribes, 10 unsubscribes) |
| Throttle.ExpiredWindowRestarts | routes/api.php:38-42 | after the window expires the next request goes on and starts a new window |
| Throttle.RateLimiter.Attempt | routes/api.php:38-42 | the limiter's cache takes one step; an allowed request learns the attempts left, below the limit |
| Routes.RouteOf | routes/api.php:20-45 | GET or HEAD of the health path, OPTIONS of any path under `api/v1/`, and POST of the two subscription paths each find their route; another method on a path under `api/v1/` finds a route under a different verb and gets 405; a path outside the prefix gets 404 |
| Routes.Limit | routes/api.php:38-42 | both throttled routes have a positive limit |
| Routes.UnthrottledRoutesTouchNothing | routes/api.php:22-31 | health, preflight, 404 and 405 write nothing, count no hit and log nothing |
| Routes.HealthIsBare | routes/api.php:22-24 | the health check answers 200 `{"ok":true}` with no headers from the middleware |
| Routes.PreflightOutcome | routes/api.php:27-31 | a preflight is 204 iff its credentials name an active project that allows the origin (or there is no origin), and 403 otherwise; the body is empty |
| Routes.OneLogEntryPerApiRequest | app/Http/Middleware/ValidateProjectCredentials.php:79-113 | a throttled-route request adds one log entry, with the project its credentials name and its final status, unless writing it fails |
| Routes.LogFaultInvisible | app/Http/Middleware/ValidateProjectCredentials.php:96-112 | a failing log write changes only the log, never the reply |
| Routes.RefusedBeforeThrottle | app/Http/Middleware/ValidateProjectCredentials.php:48-76 | a request refused by the credentials or the CORS check gets 401 or 403 with no headers and touches neither the limiter nor the datastore |
| Routes.StateChangesOnlyWhenAdmitted | routes/api.php:34-43 | a changed datastore means the request was admitted, passed CORS and was under its limit |
| Routes.SecurityNotRefusal | app/Http/Middleware/ProjectCors.php:147-160 | the 429 headers hold no security header |
| Routes.RefusalHeadersThroughCors | app/Http/Middleware/ProjectCors.php:35-38 | a 429 that goes back through CORS keeps its rate-limit headers and gains the security headers |
| Routes.RefusalCarriesHeaders | routes/api.php:34-43 | a request over its limit still passes back through CORS: it carries `Vary: Origin`, the security headers and a positive `Retry-After` |
| Routes.HandlerReached | routes/api.php:34-43 | an admitted request that passes the origin check and is under its limit gets the controller's reply and state, and counts one hit |
| Routes.ControllerRunsWhenAdmitted | routes/api.php:37-43 | the subscribe route runs the subscribe handler and the unsubscribe route the unsubscribe handler |
| Kernel.Application.constructor | bootstrap/app.php:14-19 | the application starts with an empty log, limiter and datastore |
| Kernel.Application.Handle | routes/api.php:20-45 | serving one request does what `Routes.App` specifies, keeping the datastore valid |
| Kernel.Application.Unthrottled | routes/api.php:22-31 | the health check, the preflight, a wrong method under `api/v1/` (405) and a path outside it (404) are served by `Routes.Serve`, changing nothing |
| Kernel.Application.ThroughCredentials | app/Http/Middleware/ValidateProjectCredentials.php:22-88 | the credentials stage does what `Routes.Authenticated` says, logging on the way out |
| Kernel.Application.Record | app/Http/Middleware/ValidateProjectCredentials.php:94-113 | `logRequest` appends one entry unless the write fails |
| Kernel.Application.ThroughCors | app/Http/Middleware/ProjectCors.php:16-39 | a violation gets the 403; otherwise the limiter runs and the CORS headers are added |
| Kernel.Application.ThroughLimiter | routes/api.php:38-42 | the limiter refuses with 429 or lets the controller run |
| Kernel.Application.Serviced | routes/api.php:38-42 | a request under its limit gets the controller's reply with the limit headers |
| Kernel.Application.RunController | routes/api.php:37-43 | the route's action runs on the datastore as `Routes.Controller` says |
| Kernel.TooManyResponse | routes/api.php:38 | the 429 carries limit, remaining 0, retry-after and reset |
| Kernel.LimitedResponse | routes/api.php:38 | a reply under the limit carries the limit and the attempts left |
| Jobs.RunWelcome | app/Jobs/SendWelcomeEmail.php:25-47 | mail goes to the subscriber iff the row is subscribed, its project active and the transport accepts; a missing project fails the run |
| Jobs.RunAdmin | app/Jobs/SendAdminNotification.php:38-70 | mail goes to the admin address iff the project is active, an address is configured and the transport accepts; otherwise skipped or failed |
| Jobs.NextAttempt | app/Jobs/SendConfirmationEmail.php:73 | the next attempt is 1 when the counter is absent or null, n + 1 for a number n, 2 for true and 1 for false; any other value, which PHP cannot add to, gives none |
| Lifecycle.SubscribeRuleErrors | app/Http/Controllers/Api/SubscriptionController.php:85-90 | a field is in error iff its rule fails (email, source url, referrer, meta) |
| Lifecycle.UnsubscribeRuleErrors | app/Http/Controllers/Api/UnsubscribeController.php:78-81 | a field is in error iff its rule fails (email, reason) |
| Lifecycle.QueueEmails | app/Http/Controllers/Api/SubscriptionController.php:257-273 | a pending row gets the confirmation mail, any other the welcome mail by flag, the admin mail by flag, all for this row |
| Lifecycle.Retrack | app/Http/Controllers/Api/SubscriptionController.php:177-183 | the tracking update replaces ip, agent, referrer, source url and meta and keeps a normal email |
| Lifecycle.UnsubscribeWithMeta | app/Http/Controllers/Api/UnsubscribeController.php:104-113 | the row becomes unsubscribed with the new keys merged into its meta |
| Lifecycle.KeyOf | app/Http/Controllers/ConfirmSubscriptionController.php:32 | a row's key exists iff its id is indexed and the row is there |
| Lifecycle.ConfirmTarget | app/Http/Controllers/ConfirmSubscriptionController.php:20-34 | a found confirmation target is a stored row |
| Lifecycle.SubscribeWithMeta | app/Http/Controllers/ConfirmSubscriptionController.php:79-86 | the row becomes subscribed, confirmed now, with the new keys merged into its meta |
| Lifecycle.RecordSend | app/Jobs/SendConfirmationEmail.php:71-74 | the send time and the attempt count are merged into meta; nothing else changes |
| LifecycleLemmas.UpdateRowValid | database/migrations/2025_08_26_091403_create_subscriptions_table.php:28 | rewriting a row in place and queueing jobs for it keeps the datastore invariant |
| LifecycleLemmas.InsertRowValid | database/migrations/2025_08_26_091403_create_subscriptions_table.php:28 | inserting under a fresh key with the next id keeps the invariant |
| LifecycleLemmas.CreateKeepsValid | app/Http/Controllers/Api/SubscriptionController.php:235-252 | creating a row keeps the invariant |
| LifecycleLemmas.ExistingKeepsValid | app/Http/Controllers/Api/SubscriptionController.php:169-230 | handling an existing address keeps the invariant |
| LifecycleLemmas.AdmitKeepsValid | app/Http/Controllers/Api/SubscriptionController.php:114-163 | the subscribe transaction keeps the invariant |
| LifecycleLemmas.SubscribeKeepsValid | app/Http/Controllers/Api/SubscriptionController.php:79-164 | the subscribe handler keeps the invariant |
| LifecycleLemmas.SubscribeFaultRollsBack | app/Http/Controllers/Api/SubscriptionController.php:148-163 | an exception in the transaction writes nothing and answers 500 |
| LifecycleLemmas.SubscribeAdmits | app/Http/Controllers/Api/SubscriptionController.php:112-135 | a valid request is handled under the normalised email's key |
| LifecycleLemmas.CreateFacts | app/Http/Controllers/Api/SubscriptionController.php:235-252 | a new row gets the next id, is pending iff double opt-in, is confirmed now otherwise, and gets `QueueEmails` |
| LifecycleLemmas.NewRowFacts | app/Http/Controllers/Api/SubscriptionController.php:235-252 | the new row's id, key, status and `confirmed_at` follow the project's double opt-in |
| LifecycleLemmas.CreateReply | app/Http/Controllers/Api/SubscriptionController.php:137-146 | the reply echoes the new row and asks for confirmation iff it is pending |
| LifecycleLemmas.SubscribeCreates | app/Http/Controllers/Api/SubscriptionController.php:129-146 | a valid request for a new address creates its row, queues its mails and answers 200 |
| LifecycleLemmas.ExistingUnchanged | app/Http/Controllers/Api/SubscriptionController.php:201-222 | a pending, subscribed or bounced address is answered without writing; bounced gets 422 |
| LifecycleLemmas.ResubscribeInPlace | app/Http/Controllers/Api/SubscriptionController.php:172-199 | an unsubscribed address is resubscribed in place, with the welcome mail by flag and no admin mail |
| LifecycleLemmas.SubscribeIdempotent | app/Http/Controllers/Api/SubscriptionController.php:201-215 | repeating a subscribe request that went through writes nothing more |
| LifecycleLemmas.UnsubscribeKeepsValid | app/Http/Controllers/Api/UnsubscribeController.php:72-158 | the unsubscribe handler keeps the invariant |
| LifecycleLemmas.UnsubscribeRowKeepsValid | app/Http/Controllers/Api/UnsubscribeController.php:102-130 | the unsubscribe transaction keeps the invariant |
| LifecycleLemmas.UnsubscribeReplyUniform | app/Http/Controllers/Api/UnsubscribeController.php:132-157 | every valid request gets the same 200 reply, whatever is on file and whether the transaction failed |
| LifecycleLemmas.UnsubscribeEffect | app/Http/Controllers/Api/UnsubscribeController.php:102-120 | an address on file and not yet unsubscribed becomes unsubscribed with the four keys merged, the admin mail by flag, and no other row changed |
| LifecycleLemmas.UnsubscribeKeepsMeta | app/Http/Controllers/Api/UnsubscribeController.php:107-113 | old meta keys the unsubscribe does not set survive |
| LifecycleLemmas.UnsubscribeNoop | app/Http/Controllers/Api/UnsubscribeController.php:102 | an unknown or already unsubscribed address is left as it is |
| LifecycleLemmas.UnsubscribeIdempotent | app/Http/Controllers/Api/UnsubscribeController.php:102 | a second identical request writes nothing |
| LifecycleLemmas.UrlUnsubscribeStatus | app/Http/Controllers/Api/UnsubscribeController.php:195-261 | the link handler answers 400 on bad parameters, 404 for an unknown or inactive project, and 200 otherwise, even after a failure |
| LifecycleLemmas.LinkReplyOk | app/Http/Controllers/Api/UnsubscribeController.php:243-259 | once the project is found the link answers 200 |
| LifecycleLemmas.UrlUnsubscribeKeepsValid | app/Http/Controllers/Api/UnsubscribeController.php:195-261 | the link handler keeps the invariant however far it got |
| LifecycleLemmas.UrlUnsubscribePartialWrites | app/Http/Controllers/Api/UnsubscribeController.php:223-249 | without a transaction, a failure keeps what was already written: status, then meta, then the job |
| LifecycleLemmas.ConfirmKeepsValid | app/Http/Controllers/ConfirmSubscriptionController.php:17-69 | confirmation keeps the invariant |
| LifecycleLemmas.ConfirmWritesOnlyPending | app/Http/Controllers/ConfirmSubscriptionController.php:74-137 | only a pending row under an active project is written and gets its follow-up mails; every other outcome writes nothing |
| LifecycleLemmas.ConfirmPending | app/Http/Controllers/ConfirmSubscriptionController.php:77-108 | a pending row is confirmed now and the success page is shown |
| LifecycleLemmas.ConfirmTwice | app/Http/Controllers/ConfirmSubscriptionController.php:110-116 | following the link again shows the already-confirmed page and writes nothing |
| LifecycleLemmas.ResubscribeKeepsValid | app/Http/Controllers/ConfirmSubscriptionController.php:143-201 | resubscribe keeps the invariant |
| LifecycleLemmas.ResubscribeGate | app/Http/Controllers/ConfirmSubscriptionController.php:147-175 | only an unsubscribed row with an existing project is resubscribed; otherwise 400 or 404 or 500 and nothing written |
| LifecycleLemmas.UnsubscribeThenResubscribe | app/Http/Controllers/ConfirmSubscriptionController.php:156-163 | unsubscribing then resubscribing a row makes it subscribed again under the same id, confirmed at the resubscribe time |
| LifecycleLemmas.ConfirmationJobKeepsValid | app/Jobs/SendConfirmationEmail.php:38-86 | the confirmation job keeps the invariant |
| LifecycleLemmas.ConfirmationJobShape | app/Jobs/SendConfirmationEmail.php:38-86 | a run writes nothing or records the send on the job's row |
| LifecycleLemmas.ConfirmationJobWritesOnlyWhenSent | app/Jobs/SendConfirmationEmail.php:42-74 | skipped and failed runs write nothing |
| LifecycleLemmas.ConfirmationJobCounts | app/Jobs/SendConfirmationEmail.php:71-74 | a sent mail raises the attempt counter by one (to one if absent) and keeps the status |
| LifecycleLemmas.ConfirmationJobAfterConfirm | app/Jobs/SendConfirmationEmail.php:42-48 | after confirmation a queued confirmation job is skipped |
| Store.Datastore.constructor | database/migrations/2025_08_26_091403_create_subscriptions_table.php:14-34 | an empty table whose ids start at 1, with an empty queue |
| Store.Datastore.Find | app/Http/Controllers/Api/SubscriptionController.php:118-120 | the lookup finds the row iff its key is stored |
| Store.Datastore.Insert | app/Http/Controllers/Api/SubscriptionController.php:241-251 | `create` stores the row under its key and indexes its id |
| Store.Datastore.Rollback | app/Http/Controllers/Api/SubscriptionController.php:149 | rollback restores the snapshot taken when the transaction began |
| Store.Datastore.Subscribe | app/Http/Controllers/Api/SubscriptionController.php:79-164 | the handler does what `SubscribeSpec` says and keeps the datastore valid |
| Store.Datastore.Admit | app/Http/Controllers/Api/SubscriptionController.php:112-163 | the transaction does what `AdmitSubscription` says |
| Store.Datastore.HandleExisting | app/Http/Controllers/Api/SubscriptionController.php:169-230 | does what `ExistingSubscription` says |
| Store.Datastore.Revive | app/Http/Controllers/Api/SubscriptionController.php:172-188 | the row is resubscribed and retracked, and the welcome mail queued by flag |
| Store.Datastore.CreateNew | app/Http/Controllers/Api/SubscriptionController.php:235-252 | the row `NewRow` describes is inserted |
| Store.Datastore.QueueEmailsFor | app/Http/Controllers/Api/SubscriptionController.php:257-273 | the queue gains `QueueEmails` and nothing else changes |
| Store.Datastore.UnsubscribeRow | app/Http/Controllers/Api/UnsubscribeController.php:104-113 | two writes leave the row as `UnsubscribeWithMeta` describes |
| Store.Datastore.SubscribeRow | app/Http/Controllers/ConfirmSubscriptionController.php:79-86 | two writes leave the row as `SubscribeWithMeta` describes |
| Store.Datastore.DispatchFollowUps | app/Http/Controllers/ConfirmSubscriptionController.php:88-96 | the welcome and admin jobs are queued by the project's flags |
| Store.Datastore.Unsubscribe | app/Http/Controllers/Api/UnsubscribeController.php:72-158 | the handler does what `UnsubscribeSpec` says and keeps the datastore valid |
| Store.Datastore.UnsubscribeViaUrl | app/Http/Controllers/Api/UnsubscribeController.php:195-261 | the link handler does what `UrlUnsubscribeSpec` says and keeps the datastore valid |
| Store.Datastore.NotifyAdmin | app/Http/Controllers/Api/UnsubscribeController.php:236-240 | the admin job is queued by flag unless its insert fails |
| Store.Datastore.Confirm | app/Http/Controllers/ConfirmSubscriptionController.php:17-69 | the confirmation handler does what `ConfirmSpec` says and keeps the datastore valid |
| Store.Datastore.Resubscribe | app/Http/Controllers/ConfirmSubscriptionController.php:143-201 | does what `ResubscribeSpec` says and keeps the datastore valid |
| Store.Datastore.RunConfirmationJob | app/Jobs/SendConfirmationEmail.php:38-86 | the job does what `ConfirmationJobSpec` says and keeps the datastore valid |
| ProjectAdmin.KeptLines | app/Http/Controllers/ProjectController.php:354-359 | the parsed origins are never more than the lines |
| ProjectAdmin.ParseAllowedOrigins | app/Http/Controllers/ProjectController.php:345-362 | the method's loop computes `ParsedOrigins`: [] for empty input, otherwise the trimmed, truthy lines in order |
| ProjectAdmin.KeptLinesMembers | app/Http/Controllers/ProjectController.php:354-359 | an entry is kept iff it is truthy and is the trim of some line |
| ProjectAdmin.KeptLinesConcat | app/Http/Controllers/ProjectController.php:354-359 | parsing distributes over concatenated lines |
| ProjectAdmin.ParsedEntriesClean | app/Http/Controllers/ProjectController.php:345-362 | every parsed entry is trimmed, truthy and free of newlines |
| ProjectAdmin.EditFormRoundTrip | resources/views/projects/edit.blade.php:60 | the edit form's newline-joined origins parse back to the same list |
| ProjectAdmin.FormErrors | app/Http/Controllers/ProjectController.php:152-159 | a field is in error iff its rule fails: name and status required, origins nullable, and each boolean either absent or one of true, false, 0, 1, "0", "1" (a blank field, now null, fails); status is checked only on update |
| ProjectAdmin.BlankBooleanRejected | app/Http/Controllers/ProjectController.php:152-159 | a blank `double_opt_in`, `welcome_email` or `admin_notifications` field puts the form in error |
| ProjectAdmin.Edited | app/Http/Controllers/ProjectController.php:169-176 | the update writes the six form fields and keeps id, owner, description, slug, public id and key |
| ProjectAdmin.Owned | app/Http/Controllers/ProjectController.php:64 | a user owns no more projects than there are rows |
| ProjectAdmin.OwnedAppend | app/Http/Controllers/ProjectController.php:64 | appending a row raises the owner's count by one and no one else's |
| ProjectAdmin.StoreKeepsLimit | app/Http/Controllers/ProjectController.php:63-68 | creating under the limit never takes a user past it |
| ProjectAdmin.AppendValid | database/migrations/2025_08_26_090840_create_projects_table.php:19-22 | a row with the next id and untaken slug, public id and key keeps the unique columns unique |
| ProjectAdmin.RewriteValid | database/migrations/2025_08_26_090840_create_projects_table.php:19-22 | rewriting a row with its slug and public id kept and an untaken key keeps them unique |
| ProjectAdmin.LookupUnique | app/Http/Middleware/ValidateProjectCredentials.php:57-58 | with unique public ids the credential lookup finds row k exactly when the request carries row k's key |
| ProjectAdmin.DeactivatedProjectSuspended | app/Http/Controllers/ProjectController.php:195-222 | after `destroy` the project's credentials get 403 "suspended" |
| ProjectAdmin.ReplacedKeyRejected | app/Http/Controllers/ProjectController.php:227-247 | after a key change the old key gets 401 "invalid credentials" |
| ProjectAdmin.NewKeyAdmitted | app/Http/Controllers/ProjectController.php:227-247 | after a key change the new key admits the active project |
| ProjectAdmin.ProjectTable.constructor | database/migrations/2025_08_26_090840_create_projects_table.php:14-33 | the table starts empty and valid |
| ProjectAdmin.ProjectTable.Store | app/Http/Controllers/ProjectController.php:58-114 | the limit is checked before validation; a project is created iff under the limit, valid (`FormErrors` empty, so a blank boolean field is refused), and the insert does not fail, with the next id and the hook's fresh identifiers; otherwise nothing is written |
| ProjectAdmin.ProjectTable.Update | app/Http/Controllers/ProjectController.php:148-190 | an invalid form (`FormErrors` not empty, a blank boolean field included) or a failing save writes nothing; otherwise the row becomes `Edited` |
| ProjectAdmin.ProjectTable.Destroy | app/Http/Controllers/ProjectController.php:195-222 | the row is kept and only its status becomes inactive, unless the update fails |
| ProjectAdmin.ProjectTable.RegenerateApiKey | app/Http/Controllers/ProjectController.php:227-247 | the 64-character draw becomes the key iff the save succeeds and no other row holds it; otherwise nothing changes |
| ProjectAdmin.ProjectTable.RegenerateKey | app/Models/Project.php:69-74 | `Project::regenerateApiKey` saves and returns a fresh `nlc_` key no row held |

## Left out

- HTTP rendering. Symfony's default headers (`Cache-Control`, `Date`, cookies), the
  lower-casing of header names, and the HTML bodies of the 404, 405 and 429 pages and of
  the Blade views are not modelled. A view is a reply with a status and a tag.
- Missing `Origin` header. It is represented as `None`. `Origin: null` is the string
  "null" like any other origin.
- Rate limiter internals. The key is the client address, which is an assumption of
  this model. The framework's `sha1` of the route domain and address, and its cache
  store, are not modelled. The limit headers are modelled as Laravel's
  `ThrottleRequests` sets them.
- Analytics. Response times and their averages (floating point), `top_paths`, the
  status-code histogram and the SQL grouping of `getDailyStats` are not modelled. The
  counts are over an in-memory log.
- FillDays: days are integer day numbers, not `Y-m-d` strings. The calendar and
  time-zone formatting are not modelled.
- The `$request->get('project')` fallback to a query parameter named `project` is not
  modelled. The attached project is the one the middleware found.
- Loose comparison. The loose `in_array('*', ...)` checks in `handlePreflightRequest`
  and `addCorsHeaders` are modelled as string equality, because the stored origins are
  strings. `Project::isOriginAllowed` itself compares strictly.
- Foreign predicates: views, the JavaScript snippet, the mailables and their contents,
  and URL signing (`signed` middleware) are not modelled. The following are parameters:
  - `filter_var` and Laravel's `email` and `url` rules;
  - `Str::random`, the ULID generator and `Str::slug`;
  - the transport's success.
- Dashboard plumbing. Authentication, policies (`authorize`), pagination, `show`,
  `edit`, `snippet`, `analytics` and `subscriptions` pages, CSV export, `EmbedController`
  and `OpenApiController` are not modelled.
- Meta counter types. Only a number, null, a boolean or absence are added to. A
  numeric string is counted as a value PHP cannot increment, and fails the run.
- Confirmation ids. `find` takes an integer or a string of digits. Other string forms
  MySQL would coerce are treated as no id.
- No route in the route files reaches `unsubscribeViaUrl` or `resubscribe`. They are
  modelled as the handlers they are, independent of routing.
- Framework middleware. `TrimStrings` and `ConvertEmptyStringsToNull` are assumed to
  have run. Input strings are already trimmed where the rules see them, and blank
  strings are null. A project form field that is absent and one that is blank are the
  same `JNull` for the name, origins and status rules, which treat them alike; the
  three boolean fields keep them apart.
- ProjectAdmin.Flag: `$request->boolean(..)` is modelled only on the values that pass
  the `boolean` rule.
- Concurrency. Concurrent requests and the queue worker's interleaving are not
  modelled. Each request and each job runs alone, against the state as it is then.
- Queue retries. The jobs' `$tries` and `$timeout` are constants. The queue's retry
  scheduling beyond "a failed run is retried while fewer than three attempts were made"
  is not modelled.
- Routes.Limit: states only that both limits are positive. The values 30 and 10 are
  the function's definitions.
- Logging through `logger()` is not modelled.
- Stage order. The model runs the route middleware in the order the route file lists
  them: credentials, CORS, then `throttle`. This is an assumption of the model. Laravel
  sorts route middleware by its priority list, which may run `throttle` first; a 401 or
  403 would then count against the limit, and a 429 would carry no CORS headers and add
  no log entry. Routes.RefusedBeforeThrottle, Routes.RefusalHeadersThroughCors,
  Routes.RefusalCarriesHeaders and Routes.OneLogEntryPerApiRequest rest on this order.

## Findings

| source | as written | input that shows it | evidently intended | confidence | as-written member | corrected member |
|---|---|---|---|---|---|---|
| app/Models/Project.php:115-120 | `preg_quote` runs first and escapes `*` to `\*`. The `str_replace('*', '.*', ...)` that follows then builds `\.*`, so a `*` in an entry matches only a run of dots | entry `*.example.com`, origin `https://sub.example.com`: refused, although `.example.com` is admitted | `*` matches any run of characters, so `*.example.com` admits every subdomain of `example.com`, as the comment above the code says | high; derived from the code, not executed | Projects.SubdomainPatternRejectsSubdomain | Projects.StarSuffixMatch |
