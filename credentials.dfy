/**
 * `ValidateProjectCredentials`: the two credential headers decide between letting an
 * OPTIONS request through, answering 401 or 403, or attaching the project; and the log
 * record written for every non-OPTIONS request, whose headers are cut down to an
 * allow-list first.
 */
module Credentials {
  import opened Wrappers
  import opened Text
  import opened Http
  import opened Projects
  import opened ApiRequests

  const MissingHeaders := CredentialError("Missing required headers", "Both X-Project-ID and X-Api-Key headers are required")
  const InvalidCredentials := CredentialError("Invalid credentials", "Project ID or API key is invalid")
  const Suspended := CredentialError("Project suspended", "This project has been suspended")

  /**
   * What the middleware does with a request: an OPTIONS request always goes on, with the
   * project attached when its credentials name an active one; otherwise it is answered
   * here (with the project id its log record carries) or goes on with the project.
   */
  datatype Admission =
    | PassOptions(attached: Option<Project>)
    | Denied(reply: Reply, loggedProject: Option<nat>)
    | Admitted(project: Project)

  /** The active project both credential headers name, if they are both truthy. */
  function Credited(projects: seq<Project>, r: Request): Option<Project> {
    var id := Header(r, "x-project-id");
    var key := Header(r, "x-api-key");
    if Truthy(id) && Truthy(key) then FindByCredentials(projects, id.value, key.value) else None
  }

  /** `handle` up to `$next`. */
  function Authenticate(projects: seq<Project>, r: Request): (a: Admission)
    ensures a.PassOptions? <==> IsOptions(r)
    ensures a.PassOptions? && a.attached.Some? ==> IsActive(a.attached.value)
    ensures a.Admitted? ==> IsActive(a.project) && Credited(projects, r) == Some(a.project)
    ensures a.Denied? ==> a.reply.status == 401 || a.reply.status == 403
  {
    var found := Credited(projects, r);
    if IsOptions(r) then
      PassOptions(if found.Some? && IsActive(found.value) then found else None)
    else if !Truthy(Header(r, "x-project-id")) || !Truthy(Header(r, "x-api-key")) then
      Denied(Reply(401, MissingHeaders), None)
    else if found.None? then Denied(Reply(401, InvalidCredentials), None)
    else if !IsActive(found.value) then Denied(Reply(403, Suspended), Some(found.value.id))
    else Admitted(found.value)
  }

  /** A project is attached exactly when both headers name one project and it is active. */
  lemma AdmittedIff(projects: seq<Project>, r: Request, p: Project)
    requires !IsOptions(r)
    ensures Authenticate(projects, r) == Admitted(p) <==>
            Truthy(Header(r, "x-project-id")) && Truthy(Header(r, "x-api-key")) &&
            FindByCredentials(projects, Header(r, "x-project-id").value, Header(r, "x-api-key").value) == Some(p) &&
            IsActive(p)
  {
  }

  /** A missing or falsy credential header: 401, logged without a project. */
  lemma MissingHeadersRejected(projects: seq<Project>, r: Request)
    requires !IsOptions(r)
    ensures Authenticate(projects, r) == Denied(Reply(401, MissingHeaders), None) <==>
            !Truthy(Header(r, "x-project-id")) || !Truthy(Header(r, "x-api-key"))
  {
  }

  /**
   * An unknown project id and a wrong key get the same answer: two requests whose
   * credentials match no project are treated identically.
   */
  lemma InvalidCredentialsIndistinguishable(projects: seq<Project>, r1: Request, r2: Request)
    requires !IsOptions(r1) && !IsOptions(r2)
    requires Truthy(Header(r1, "x-project-id")) && Truthy(Header(r1, "x-api-key"))
    requires Truthy(Header(r2, "x-project-id")) && Truthy(Header(r2, "x-api-key"))
    requires Credited(projects, r1).None? && Credited(projects, r2).None?
    ensures Authenticate(projects, r1) == Authenticate(projects, r2) == Denied(Reply(401, InvalidCredentials), None)
  {
  }

  /** Credentials of an inactive project: 403, logged with that project's id. */
  lemma SuspendedRejected(projects: seq<Project>, r: Request, p: Project)
    requires !IsOptions(r) && Credited(projects, r) == Some(p) && !IsActive(p)
    ensures Authenticate(projects, r) == Denied(Reply(403, Suspended), Some(p.id))
  {
  }

  // ---------------------------------------------------------------------------------
  // getRelevantHeaders

  /** The header names kept in a log record, in the order the loop visits them. */
  const AllowList := ["content-type", "accept", "origin", "referer", "user-agent", "x-forwarded-for", "x-real-ip"]

  /** The request's headers restricted to the allow-list, each with its values unchanged. */
  function Relevant(h: map<string, seq<string>>): map<string, seq<string>> {
    map k | k in h && k in AllowList :: h[k]
  }

  /** `getRelevantHeaders`: the loop over the allow-list that copies each present header. */
  method GetRelevantHeaders(h: map<string, seq<string>>) returns (kept: map<string, seq<string>>)
    ensures kept == Relevant(h)
  {
    kept := map[];
    for i := 0 to |AllowList|
      invariant kept == map k | k in h && k in AllowList[..i] :: h[k]
    {
      var name := AllowList[i];
      if name in h {
        kept := kept[name := h[name]];
      }
      assert AllowList[..i + 1] == AllowList[..i] + [name];
    }
    assert AllowList[..|AllowList|] == AllowList;
  }

  /**
   * What a log record may hold: only allow-listed names, with the request's own values,
   * and every allow-listed header the request has; the API key, the authorization header
   * and cookies never.
   */
  lemma RelevantFilters(h: map<string, seq<string>>)
    ensures forall k :: k in Relevant(h) <==> k in h && k in AllowList
    ensures forall k :: k in Relevant(h) ==> Relevant(h)[k] == h[k]
    ensures "x-api-key" !in Relevant(h) && "authorization" !in Relevant(h) && "cookie" !in Relevant(h)
  {
  }

  /**
   * `logRequest($request, $projectId, $statusCode, ...)`: the client address, user agent,
   * path with its leading slash, method, code and relevant headers of the request.
   */
  function EntryFor(r: Request, projectId: Option<nat>, statusCode: int, now: Time): (e: LogEntry)
    ensures e.projectId == projectId && e.statusCode == statusCode && e.ip == r.ip
    ensures e.path == "/" + r.path && e.verb == Upper(Method(r)) && e.createdAt == Some(now)
    ensures e.headers == Relevant(r.headers)
  {
    LogRequest(projectId, r.ip, UserAgent(r), "/" + r.path, Method(r), statusCode, Relevant(r.headers), now)
  }
}
