/**
 * The three queued mail jobs (`SendConfirmationEmail`, `SendWelcomeEmail`,
 * `SendAdminNotification`): what a job carries, its retry limits, and the guards each
 * re-checks before sending. A job is run against the row as it is when the job runs.
 */
module Jobs {
  import opened Wrappers
  import opened Text
  import opened Http
  import opened Projects
  import opened Subscriptions

  /**
   * A queued job carries only the subscription's id. `SendAdminNotification` takes a
   * single constructor argument, so the event kind its callers pass is dropped.
   */
  datatype Job =
    | ConfirmationJob(subscriptionId: nat)
    | WelcomeJob(subscriptionId: nat)
    | AdminJob(subscriptionId: nat)

  /** `$tries` and `$timeout`, the same for all three jobs. */
  const Tries := 3
  const TimeoutSeconds := 30

  /**
   * How a run ends: skipped by a guard, mail handed to the transport for `to`, or failed
   * with the exception rethrown for the queue to retry (`mailed`: the mail had gone out).
   */
  datatype Outcome = Skipped | Sent(to: string) | Failed(mailed: bool)

  /** The queue retries a failed run while fewer than `Tries` attempts have been made. */
  predicate Retried(o: Outcome, attempt: nat) {
    o.Failed? && attempt < Tries
  }

  /**
   * `SendWelcomeEmail::handle`. A subscribed row whose project is gone makes
   * `->isActive()` throw, which fails the run. `mailOk` is whether the transport accepts.
   */
  function RunWelcome(s: Subscription, project: Option<Project>, mailOk: bool): (o: Outcome)
    ensures o.Sent? <==> s.status == Subscribed && project.Some? && IsActive(project.value) && mailOk
    ensures o.Sent? ==> o.to == s.email
    ensures o.Failed? <==> s.status == Subscribed && (project.None? || (IsActive(project.value) && !mailOk))
    ensures o.Failed? ==> !o.mailed
  {
    if s.status != Subscribed then Skipped
    else if project.None? then Failed(false)
    else if !IsActive(project.value) then Skipped
    else if mailOk then Sent(s.email)
    else Failed(false)
  }

  /**
   * `SendAdminNotification::handle`; `adminEmail` is `config('newsletter.admin_notification_email')`.
   * The subscription's status is not consulted.
   */
  function RunAdmin(project: Option<Project>, adminEmail: Option<string>, mailOk: bool): (o: Outcome)
    ensures o.Sent? <==> project.Some? && IsActive(project.value) && Truthy(adminEmail) && mailOk
    ensures o.Sent? ==> Some(o.to) == adminEmail
    ensures o.Skipped? <==> project.Some? && (!IsActive(project.value) || !Truthy(adminEmail))
    ensures o.Failed? ==> !o.mailed
  {
    if project.None? then Failed(false)
    else if !IsActive(project.value) then Skipped
    else if !Truthy(adminEmail) then Skipped
    else if mailOk then Sent(adminEmail.value)
    else Failed(false)
  }

  /** The guard of `SendConfirmationEmail::handle`: the row exists, is pending, and its project is active. */
  predicate ConfirmationDue(s: Option<Subscription>, project: Option<Project>) {
    s.Some? && s.value.status == Pending && project.Some? && IsActive(project.value)
  }

  /** The meta key `SendConfirmationEmail` counts its sends under. */
  const AttemptsKey := "confirmation_email_attempts"

  /**
   * `($meta['confirmation_email_attempts'] ?? 0) + 1`, or `None` where PHP's `+` fails:
   * non-numeric strings, arrays and objects. Numeric strings, which PHP would add, are
   * treated as failures too (a simplification of this model).
   */
  function NextAttempt(meta: map<string, Json>): (r: Option<int>)
    ensures AttemptsKey !in meta ==> r == Some(1)
    ensures AttemptsKey in meta && meta[AttemptsKey].JNull? ==> r == Some(1)
    ensures AttemptsKey in meta && meta[AttemptsKey].JNum? ==> r == Some(meta[AttemptsKey].n + 1)
    ensures AttemptsKey in meta && meta[AttemptsKey].JBool? ==> r == Some(if meta[AttemptsKey].b then 2 else 1)
    ensures r.Some? ==> AttemptsKey !in meta || meta[AttemptsKey].JNull? || meta[AttemptsKey].JNum? || meta[AttemptsKey].JBool?
  {
    if AttemptsKey !in meta then Some(1)
    else match meta[AttemptsKey]
      case JNull => Some(1)
      case JNum(n) => Some(n + 1)
      case JBool(b) => Some(if b then 2 else 1)
      case _ => None
  }
}
