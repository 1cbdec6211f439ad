/**
 * The two inactivity policies of the account-expiration controller.
 *
 * Both return `true` for "keep" and `false` for "lock" (CheckLock) or
 * "delete" (CheckDel), as the controller expects. Each is a Go `switch`
 * without a tag whose first true case wins, even when that case's body does
 * not return; the last case is therefore reached only when both the login
 * and the transition timestamps are set. The repeated `time.Now()` calls are
 * one `now` parameter.
 *
 * Each policy is also given by a deadline: the last instant at which the
 * account is still kept. The policies are proved to be exactly "keep iff now
 * is not past the deadline", which gives monotonicity in `now`.
 */
module Policy {
  import opened Wrappers
  import opened Clock

  const LockMonths: int := 3
  const GraceDays: int := 7
  const DeleteMonths: int := 6

  function Max(a: Time, b: Time): Time
  {
    if a < b then b else a
  }

  /**
   * The lock rules as a table over which timestamps are set:
   * neither: creation + 3 months;
   * transition only: transition + 3 months when it equals creation, otherwise
   *   the later of transition + 7 days and creation + 3 months;
   * login only: login + 3 months;
   * both: the later of login + 3 months and transition + 7 days.
   */
  function LockDeadline(cal: Calendar, lastLogin: Option<Time>, lastTransition: Option<Time>, creation: Time): Time
  {
    match (Stamp(lastLogin), Stamp(lastTransition))
    case (None, None) => AddMonths(cal, creation, LockMonths)
    case (None, Some(transition)) =>
      if creation == transition then AddMonths(cal, transition, LockMonths)
      else Max(AddDays(cal, transition, GraceDays), AddMonths(cal, creation, LockMonths))
    case (Some(login), None) => AddMonths(cal, login, LockMonths)
    case (Some(login), Some(transition)) =>
      Max(AddMonths(cal, login, LockMonths), AddDays(cal, transition, GraceDays))
  }

  /**
   * The deletion rules: six months after the only recorded timestamp that
   * is set, or after creation when neither is set. When both are set it is
   * the later of the two six-month deadlines (both must have passed), which
   * need not be six months after the later timestamp, since calendar
   * arithmetic does not preserve order at month ends.
   */
  function DeleteDeadline(cal: Calendar, lastLogin: Option<Time>, lastTransition: Option<Time>, creation: Time): Time
  {
    match (Stamp(lastLogin), Stamp(lastTransition))
    case (None, None) => AddMonths(cal, creation, DeleteMonths)
    case (None, Some(transition)) => AddMonths(cal, transition, DeleteMonths)
    case (Some(login), None) => AddMonths(cal, login, DeleteMonths)
    case (Some(login), Some(transition)) =>
      Max(AddMonths(cal, transition, DeleteMonths), AddMonths(cal, login, DeleteMonths))
  }

  /** `CheckLock`: true keeps the account Active, false asks for it to be disabled. */
  function CheckLock(cal: Calendar, lastLogin: Option<Time>, lastTransition: Option<Time>, creation: Time, now: Time): (keep: bool)
    ensures keep <==> !Before(LockDeadline(cal, lastLogin, lastTransition, creation), now)
  {
    if IsZero(lastTransition) && IsZero(lastLogin) then
      !Before(AddMonths(cal, creation, LockMonths), now)
    else if !IsZero(lastTransition) && IsZero(lastLogin) then
      var transition := lastTransition.value;
      if Before(AddMonths(cal, transition, LockMonths), now) && creation == transition then false
      else if Before(AddDays(cal, transition, GraceDays), now) && creation != transition then
        !Before(AddMonths(cal, creation, LockMonths), now)
      else true
    else if IsZero(lastTransition) && !IsZero(lastLogin) then
      !Before(AddMonths(cal, lastLogin.value, LockMonths), now)
    else if Before(AddMonths(cal, lastLogin.value, LockMonths), now)
         && Before(AddDays(cal, lastTransition.value, GraceDays), now) then false
    else true
  }

  /** `CheckDel`: true keeps the account, false asks for it to be deleted. */
  function CheckDel(cal: Calendar, lastLogin: Option<Time>, lastTransition: Option<Time>, creation: Time, now: Time): (keep: bool)
    ensures keep <==> !Before(DeleteDeadline(cal, lastLogin, lastTransition, creation), now)
  {
    if IsZero(lastTransition) && IsZero(lastLogin) then
      !Before(AddMonths(cal, creation, DeleteMonths), now)
    else if !IsZero(lastTransition) && IsZero(lastLogin) then
      !Before(AddMonths(cal, lastTransition.value, DeleteMonths), now)
    else if IsZero(lastTransition) && !IsZero(lastLogin) then
      !Before(AddMonths(cal, lastLogin.value, DeleteMonths), now)
    else if Before(AddMonths(cal, lastTransition.value, DeleteMonths), now)
         && Before(AddMonths(cal, lastLogin.value, DeleteMonths), now) then false
    else true
  }

  /** The lock rules case by case, in the form the controller's design states them. */
  lemma LockRules(cal: Calendar, lastLogin: Option<Time>, lastTransition: Option<Time>, creation: Time, now: Time)
    ensures IsZero(lastLogin) && IsZero(lastTransition) ==>
      (!CheckLock(cal, lastLogin, lastTransition, creation, now) <==> Before(AddMonths(cal, creation, 3), now))
    ensures IsZero(lastLogin) && !IsZero(lastTransition) && creation == lastTransition.value ==>
      (!CheckLock(cal, lastLogin, lastTransition, creation, now) <==> Before(AddMonths(cal, creation, 3), now))
    ensures IsZero(lastLogin) && !IsZero(lastTransition) && creation != lastTransition.value ==>
      (!CheckLock(cal, lastLogin, lastTransition, creation, now)
       <==> Before(AddDays(cal, lastTransition.value, 7), now) && Before(AddMonths(cal, creation, 3), now))
    ensures !IsZero(lastLogin) && IsZero(lastTransition) ==>
      (!CheckLock(cal, lastLogin, lastTransition, creation, now) <==> Before(AddMonths(cal, lastLogin.value, 3), now))
    ensures !IsZero(lastLogin) && !IsZero(lastTransition) ==>
      (!CheckLock(cal, lastLogin, lastTransition, creation, now)
       <==> Before(AddMonths(cal, lastLogin.value, 3), now) && Before(AddDays(cal, lastTransition.value, 7), now))
  {
  }

  /** The deletion rules case by case: no grace period and no equality tie-break. */
  lemma DeleteRules(cal: Calendar, lastLogin: Option<Time>, lastTransition: Option<Time>, creation: Time, now: Time)
    ensures IsZero(lastLogin) && IsZero(lastTransition) ==>
      (!CheckDel(cal, lastLogin, lastTransition, creation, now) <==> Before(AddMonths(cal, creation, 6), now))
    ensures IsZero(lastLogin) && !IsZero(lastTransition) ==>
      (!CheckDel(cal, lastLogin, lastTransition, creation, now) <==> Before(AddMonths(cal, lastTransition.value, 6), now))
    ensures !IsZero(lastLogin) && IsZero(lastTransition) ==>
      (!CheckDel(cal, lastLogin, lastTransition, creation, now) <==> Before(AddMonths(cal, lastLogin.value, 6), now))
    ensures !IsZero(lastLogin) && !IsZero(lastTransition) ==>
      (!CheckDel(cal, lastLogin, lastTransition, creation, now)
       <==> Before(AddMonths(cal, lastTransition.value, 6), now) && Before(AddMonths(cal, lastLogin.value, 6), now))
  {
  }

  /** Once an account is due for locking it stays due: time only moves the decision one way. */
  lemma LockMonotoneInNow(cal: Calendar, lastLogin: Option<Time>, lastTransition: Option<Time>, creation: Time, now1: Time, now2: Time)
    requires now1 <= now2
    requires !CheckLock(cal, lastLogin, lastTransition, creation, now1)
    ensures !CheckLock(cal, lastLogin, lastTransition, creation, now2)
  {
  }

  lemma DeleteMonotoneInNow(cal: Calendar, lastLogin: Option<Time>, lastTransition: Option<Time>, creation: Time, now1: Time, now2: Time)
    requires now1 <= now2
    requires !CheckDel(cal, lastLogin, lastTransition, creation, now1)
    ensures !CheckDel(cal, lastLogin, lastTransition, creation, now2)
  {
  }

  /** Once a login or a transition is recorded, the creation instant no longer matters for deletion. */
  lemma DeleteIgnoresCreation(cal: Calendar, lastLogin: Option<Time>, lastTransition: Option<Time>, creation1: Time, creation2: Time, now: Time)
    requires !IsZero(lastLogin) || !IsZero(lastTransition)
    ensures CheckDel(cal, lastLogin, lastTransition, creation1, now) == CheckDel(cal, lastLogin, lastTransition, creation2, now)
  {
  }

  /**
   * With a calendar whose arithmetic preserves order, a more recent login
   * never brings locking forward.
   */
  lemma LaterLoginNeverLocksSooner(cal: Calendar, login1: Time, login2: Time, lastTransition: Option<Time>, creation: Time, now: Time)
    requires Monotone(cal)
    requires login1 != ZeroTime && login2 != ZeroTime && login1 <= login2
    requires !CheckLock(cal, Some(login2), lastTransition, creation, now)
    ensures !CheckLock(cal, Some(login1), lastTransition, creation, now)
  {
  }

  lemma LaterLoginNeverDeletesSooner(cal: Calendar, login1: Time, login2: Time, lastTransition: Option<Time>, creation: Time, now: Time)
    requires Monotone(cal)
    requires login1 != ZeroTime && login2 != ZeroTime && login1 <= login2
    requires !CheckDel(cal, Some(login2), lastTransition, creation, now)
    ensures !CheckDel(cal, Some(login1), lastTransition, creation, now)
  {
  }

  /** Never logged in, created four months ago: lock. */
  lemma LockScenarioStale(cal: Calendar, creation: Time, now: Time)
    requires Forward(cal) && AddMonths(cal, creation, 4) == now
    ensures !CheckLock(cal, None, None, creation, now)
  {
  }

  /** Transition stamped at creation, four months ago, never logged in: lock. */
  lemma LockScenarioTransitionAtCreation(cal: Calendar, creation: Time, now: Time)
    requires Forward(cal) && creation != ZeroTime && AddMonths(cal, creation, 4) == now
    ensures !CheckLock(cal, None, Some(creation), creation, now)
  {
  }

  /** Created a month ago, transitioned ten days ago, never logged in: keep, the three months are not over. */
  lemma LockScenarioRecentCreation(cal: Calendar, creation: Time, transition: Time, now: Time)
    requires Forward(cal) && transition != ZeroTime
    requires AddMonths(cal, creation, 1) == now && AddDays(cal, transition, 10) == now
    ensures CheckLock(cal, None, Some(transition), creation, now)
  {
  }

  /** Last login four months ago, transition ten days ago: lock, both windows are over. */
  lemma LockScenarioBothExpired(cal: Calendar, login: Time, transition: Time, creation: Time, now: Time)
    requires Forward(cal) && login != ZeroTime && transition != ZeroTime
    requires AddMonths(cal, login, 4) == now && AddDays(cal, transition, 10) == now
    ensures !CheckLock(cal, Some(login), Some(transition), creation, now)
  {
  }

  /** Never logged in, created seven months ago: delete. */
  lemma DeleteScenarioStale(cal: Calendar, creation: Time, now: Time)
    requires Forward(cal) && AddMonths(cal, creation, 7) == now
    ensures !CheckDel(cal, None, None, creation, now)
  {
  }
}
