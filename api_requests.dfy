/**
 * The request log (`ApiRequest`): the record the credential middleware writes for every
 * API request it answers or forwards, the status-code classes the dashboard reports, the
 * counts of the analytics summary and the zero-filled series of daily counts.
 */
module ApiRequests {
  import opened Wrappers
  import opened Text
  import opened Http

  /**
   * One `api_requests` row. The response time (a float from `microtime`) is not kept;
   * `createdAt` is `None` until the creating hook fills it in.
   */
  datatype LogEntry = LogEntry(
    projectId: Option<nat>,
    ip: string,
    userAgent: Option<string>,
    path: string,
    verb: string,
    statusCode: int,
    headers: map<string, seq<string>>,
    createdAt: Option<Time>)

  /** The `creating` hook: `created_at` becomes now only when it is unset. */
  function Creating(e: LogEntry, now: Time): (r: LogEntry)
    ensures e.createdAt.Some? ==> r == e
    ensures e.createdAt.None? ==> r == e.(createdAt := Some(now))
  {
    if e.createdAt.None? then e.(createdAt := Some(now)) else e
  }

  /** A second run of the hook, at any time, changes nothing. */
  lemma CreatingIdempotent(e: LogEntry, now: Time, later: Time)
    ensures Creating(Creating(e, now), later) == Creating(e, now)
  {
  }

  /**
   * `ApiRequest::logRequest` followed by the creating hook: the method (`verb`) upper-cased, every
   * other field as given, and the creation time now.
   */
  function LogRequest(projectId: Option<nat>, ip: string, userAgent: Option<string>, path: string,
                      verb: string, statusCode: int, headers: map<string, seq<string>>, now: Time)
    : (e: LogEntry)
    ensures e.verb == Upper(verb) && e.createdAt == Some(now)
    ensures e == LogEntry(projectId, ip, userAgent, path, e.verb, statusCode, headers, e.createdAt)
  {
    Creating(LogEntry(projectId, ip, userAgent, path, Upper(verb), statusCode, headers, None), now)
  }

  /** Logging a method that is already upper case stores it unchanged. */
  lemma {:induction false} UpperIdempotent(s: string)
    ensures Upper(Upper(s)) == Upper(s)
  {
    if s != [] {
      UpperIdempotent(s[1..]);
      assert Upper(s)[1..] == Upper(s[1..]);
    }
  }

  // ---------------------------------------------------------------------------------
  // Status classes

  /** `isSuccessful` and the `successful` scope: a 2xx code. */
  predicate IsSuccessful(code: int) {
    200 <= code < 300
  }

  /** `isClientError`: a 4xx code. */
  predicate IsClientError(code: int) {
    400 <= code < 500
  }

  /** `isServerError`: 500 or above. */
  predicate IsServerError(code: int) {
    code >= 500
  }

  /**
   * The `failed` scope and the analytics' failed count: 400 or above, which is exactly a
   * client or a server error, and never a success.
   */
  predicate IsFailed(code: int)
    ensures IsFailed(code) <==> IsClientError(code) || IsServerError(code)
    ensures IsFailed(code) ==> !IsSuccessful(code)
  {
    code >= 400
  }

  /** No code is in two of the three classes. */
  lemma ClassesExclusive(code: int)
    ensures !(IsSuccessful(code) && IsClientError(code))
    ensures !(IsSuccessful(code) && IsServerError(code))
    ensures !(IsClientError(code) && IsServerError(code))
  {
  }

  // ---------------------------------------------------------------------------------
  // getAnalyticsForProject: the counts

  /** The rows the summary reads: the project's, created at or after `start`. */
  predicate InWindow(e: LogEntry, projectId: nat, start: Time) {
    e.projectId == Some(projectId) && e.createdAt.Some? && e.createdAt.value >= start
  }

  /** `forProject($id)->where('created_at', '>=', $start)->get()`, in table order. */
  function Selected(log: seq<LogEntry>, projectId: nat, start: Time): (r: seq<LogEntry>)
    ensures |r| <= |log|
    ensures forall e :: e in r <==> e in log && InWindow(e, projectId, start)
  {
    if log == [] then []
    else
      var rest := Selected(log[1..], projectId, start);
      assert forall e :: e in log <==> e == log[0] || e in log[1..];
      if InWindow(log[0], projectId, start) then [log[0]] + rest else rest
  }

  /** How many rows have a 2xx code. */
  function CountSuccessful(rows: seq<LogEntry>): (n: nat)
    ensures n <= |rows|
  {
    if rows == [] then 0 else (if IsSuccessful(rows[0].statusCode) then 1 else 0) + CountSuccessful(rows[1..])
  }

  /** How many rows have a code of 400 or above. */
  function CountFailed(rows: seq<LogEntry>): (n: nat)
    ensures n <= |rows|
  {
    if rows == [] then 0 else (if IsFailed(rows[0].statusCode) then 1 else 0) + CountFailed(rows[1..])
  }

  /** `pluck('ip_address')->unique()`. */
  function Ips(rows: seq<LogEntry>): set<string> {
    if rows == [] then {} else {rows[0].ip} + Ips(rows[1..])
  }

  /** The integer part of the summary; the averages, top paths and code histogram are not kept. */
  datatype Summary = Summary(total: nat, successful: nat, failed: nat, uniqueIps: nat)

  function Analytics(log: seq<LogEntry>, projectId: nat, start: Time): Summary {
    var rows := Selected(log, projectId, start);
    Summary(|rows|, CountSuccessful(rows), CountFailed(rows), |Ips(rows)|)
  }

  /** Successful and failed rows are disjoint, so together they never exceed the total. */
  lemma {:induction false} SuccessfulPlusFailed(rows: seq<LogEntry>)
    ensures CountSuccessful(rows) + CountFailed(rows) <= |rows|
  {
    if rows != [] {
      SuccessfulPlusFailed(rows[1..]);
    }
  }

  /** There are never more distinct addresses than rows. */
  lemma {:induction false} IpsAtMostRows(rows: seq<LogEntry>)
    ensures |Ips(rows)| <= |rows|
  {
    if rows != [] {
      IpsAtMostRows(rows[1..]);
      assert Ips(rows) == {rows[0].ip} + Ips(rows[1..]);
    }
  }

  /** Every address in the summary belongs to a selected row, and every selected row's address is counted. */
  lemma {:induction false} IpsAreRowIps(rows: seq<LogEntry>)
    ensures forall ip :: ip in Ips(rows) <==> exists i :: 0 <= i < |rows| && rows[i].ip == ip
  {
    if rows != [] {
      IpsAreRowIps(rows[1..]);
      forall ip | ip in Ips(rows)
        ensures exists i :: 0 <= i < |rows| && rows[i].ip == ip
      {
        if ip != rows[0].ip {
          assert ip in Ips(rows[1..]);
          var i :| 0 <= i < |rows[1..]| && rows[1..][i].ip == ip;
          assert rows[i + 1].ip == ip;
        }
      }
      forall ip | exists i :: 0 <= i < |rows| && rows[i].ip == ip
        ensures ip in Ips(rows)
      {
        var i :| 0 <= i < |rows| && rows[i].ip == ip;
        if i > 0 {
          assert rows[1..][i - 1].ip == ip;
        }
      }
    }
  }

  /** The bounds the summary promises: successful + failed <= total and unique_ips <= total. */
  lemma AnalyticsBounds(log: seq<LogEntry>, projectId: nat, start: Time)
    ensures Analytics(log, projectId, start).successful + Analytics(log, projectId, start).failed
            <= Analytics(log, projectId, start).total
    ensures Analytics(log, projectId, start).uniqueIps <= Analytics(log, projectId, start).total
    ensures Analytics(log, projectId, start).total <= |log|
  {
    var rows := Selected(log, projectId, start);
    SuccessfulPlusFailed(rows);
    IpsAtMostRows(rows);
  }

  // ---------------------------------------------------------------------------------
  // Zero-filled daily series

  /** One day of a series: a day index (days since an epoch) and the count stored for it. */
  datatype DayCount = DayCount(day: int, count: nat)

  /**
   * The fill loop of `getDailyStats` (and of the project chart): for `i` from `days - 1`
   * down to 0, the day `today - i` with its grouped count, or 0 when the grouped query
   * has no row for that day. `counts` is the grouped query keyed by day.
   */
  method FillDays(counts: map<int, nat>, today: int, days: int) returns (r: seq<DayCount>)
    ensures |r| == if days > 0 then days else 0
    ensures forall k :: 0 <= k < |r| ==> r[k].day == today - (|r| - 1 - k)
    ensures forall k :: 0 <= k < |r| ==> r[k].count == if r[k].day in counts then counts[r[k].day] else 0
  {
    r := [];
    var i := days - 1;
    while i >= 0
      invariant days > 0 ==> -1 <= i <= days - 1 && |r| == days - 1 - i
      invariant days <= 0 ==> r == []
      invariant forall k :: 0 <= k < |r| ==> r[k].day == today - (days - 1 - k)
      invariant forall k :: 0 <= k < |r| ==> r[k].count == if r[k].day in counts then counts[r[k].day] else 0
      decreases i
    {
      var day := today - i;
      var c := if day in counts then counts[day] else 0;
      r := r + [DayCount(day, c)];
      i := i - 1;
    }
  }

  /** The series has one entry per consecutive day, ending today, in increasing order. */
  lemma FilledDaysConsecutive(r: seq<DayCount>, today: int)
    requires forall k :: 0 <= k < |r| ==> r[k].day == today - (|r| - 1 - k)
    ensures r != [] ==> r[|r| - 1].day == today
    ensures forall k :: 0 <= k < |r| - 1 ==> r[k + 1].day == r[k].day + 1
  {
  }
}
