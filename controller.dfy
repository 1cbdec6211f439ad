/**
 * The user reconciler: one reconciliation of one KubeSphere user.
 *
 * The store is a map from user name to record. Whether each store call
 * succeeds is an input (`Replies`): the store's own rules (versions,
 * finalizers, records already gone) are outside the model. A successful
 * Delete removes the record and a successful Update writes it. Every call
 * issued is appended to a log, tagged with the step of the controller that
 * issued it, and every request sent to the directory to a second log.
 *
 * `Reconciled` is the specification of one call; `UserReconciler.Reconcile`
 * runs the steps one after another with early returns and is proved to
 * produce exactly that effect.
 */
module Controller {
  import opened Wrappers
  import opened Clock
  import opened Policy
  import opened Directory

  const PhoneLabel: string := "iam.kubesphere.io/origin-uid"
  const Active: string := "Active"
  const Disabled: string := "Disabled"
  const Admin: string := "admin"

  /** The fields of a KubeSphere user that the controller reads. */
  datatype Account = Account(
    name: string,
    labels: map<string, string>,
    state: string,
    creation: Time,
    lastLogin: Option<Time>,
    lastTransition: Option<Time>)

  datatype StoreError = NotFound | Conflict | Other(reason: string)

  datatype ReconcileError = MissingPhoneLabel(user: string) | StoreFailed(cause: StoreError)

  /** A reconciliation returns an error (or nil), or panics. */
  datatype Completion = Returned(err: Option<ReconcileError>) | Panicked

  /** The step that issued a store call: directory check, lock, or expiry deletion. */
  datatype Step = DirectoryCheck | LockCheck | ExpiryCheck

  datatype Mutation = Delete(target: Account) | Update(record: Account)

  datatype Issued = Issued(step: Step, call: Mutation)

  /** The store's answer to each call a reconciliation may make; None is success. */
  datatype Replies = Replies(
    get: Option<StoreError>,
    directoryDelete: Option<StoreError>,
    disable: Option<StoreError>,
    expiryDelete: Option<StoreError>)

  /** Everything a reconciliation observes besides the store's records. */
  datatype World = World(
    cal: Calendar,
    now: Time,
    hash: string -> string,
    send: Request -> Exchange,
    replies: Replies)

  /** What one reconciliation does: requests sent, store calls issued, the records left, and how it ended. */
  datatype Effect = Effect(
    queries: seq<Request>,
    issued: seq<Issued>,
    users: map<string, Account>,
    completion: Completion)

  /** Every record is stored under its own name. */
  ghost predicate Keyed(users: map<string, Account>)
  {
    forall k :: k in users ==> users[k].name == k
  }

  /** `client.IgnoreNotFound`. */
  function IgnoreNotFound(e: StoreError): Option<ReconcileError>
  {
    if e == NotFound then None else Some(StoreFailed(e))
  }

  /** Some call in the log was issued by `step`. */
  predicate IssuedBy(log: seq<Issued>, step: Step)
  {
    exists i :: 0 <= i < |log| && log[i].step == step
  }

  lemma IssuedByAppend(log: seq<Issued>, more: seq<Issued>)
    ensures forall step :: IssuedBy(log + more, step) <==> IssuedBy(log, step) || IssuedBy(more, step)
  {
    forall step ensures IssuedBy(log + more, step) <==> IssuedBy(log, step) || IssuedBy(more, step) {
      if IssuedBy(log + more, step) {
        var i :| 0 <= i < |log + more| && (log + more)[i].step == step;
        if i >= |log| { assert more[i - |log|].step == step; }
      }
      if IssuedBy(log, step) {
        var j :| 0 <= j < |log| && log[j].step == step;
        assert (log + more)[j].step == step;
      }
      if IssuedBy(more, step) {
        var j :| 0 <= j < |more| && more[j].step == step;
        assert (log + more)[|log| + j].step == step;
      }
    }
  }

  function ReplyFor(step: Step, r: Replies): Option<StoreError>
  {
    match step
    case DirectoryCheck => r.directoryDelete
    case LockCheck => r.disable
    case ExpiryCheck => r.expiryDelete
  }

  /** The record was fetched: no injected Get error, and the name is in the store. */
  predicate Fetched(users: map<string, Account>, name: string, w: World)
  {
    w.replies.get.None? && name in users
  }

  /** The record was fetched and carries a phone number, so the directory is asked. */
  predicate Queried(users: map<string, Account>, name: string, w: World)
  {
    Fetched(users, name, w) && PhoneLabel in users[name].labels
  }

  function DirectoryRequest(cfg: Config, user: Account, w: World): Request
    requires PhoneLabel in user.labels
  {
    BuildRequest(cfg, user.labels[PhoneLabel], UnixSeconds(w.now), w.hash)
  }

  function DirectoryVerdict(cfg: Config, user: Account, w: World): Verdict
    requires PhoneLabel in user.labels
  {
    CheckStatus(w.send(DirectoryRequest(cfg, user, w)))
  }

  /** The directory step neither panicked nor failed, so the lock and expiry steps are evaluated. */
  predicate PastDirectoryCheck(cfg: Config, users: map<string, Account>, name: string, w: World)
  {
    && Queried(users, name, w)
    && DirectoryVerdict(cfg, users[name], w).Answered?
    && (DirectoryVerdict(cfg, users[name], w).keep || w.replies.directoryDelete.None?)
  }

  /** Step 2's condition on the state read at entry. */
  predicate LockDue(user: Account, w: World)
  {
    user.state == Active && user.name != Admin
    && !CheckLock(w.cal, user.lastLogin, user.lastTransition, user.creation, w.now)
  }

  /** Step 3's condition on the state read at entry. */
  predicate ExpiryDue(user: Account, w: World)
  {
    user.state == Disabled && user.name != Admin
    && !CheckDel(w.cal, user.lastLogin, user.lastTransition, user.creation, w.now)
  }

  function Disable(user: Account): Account
  {
    user.(state := Disabled)
  }

  /**
   * The records after a store call with the given reply. An Update never
   * creates a record: one for a name no longer in the store changes nothing.
   */
  function Applied(users: map<string, Account>, m: Mutation, reply: Option<StoreError>): map<string, Account>
  {
    if reply.Some? then users
    else match m
      case Delete(a) => users - {a.name}
      case Update(a) => if a.name in users then users[a.name := a] else users
  }

  /**
   * Steps 2 and 3, from the record read at entry, after the directory step
   * has left `log` and `users`. Each step reads the state snapshot, not the
   * record that step 2 may have changed.
   */
  function LockAndExpire(queries: seq<Request>, log: seq<Issued>, users: map<string, Account>, user: Account, w: World): (e: Effect)
    ensures e.queries == queries
    ensures !LockDue(user, w) && !ExpiryDue(user, w) ==> e == Effect(queries, log, users, Returned(None))
    ensures LockDue(user, w) ==> e.issued == log + [Issued(LockCheck, Update(Disable(user)))]
    ensures ExpiryDue(user, w) ==> e.issued == log + [Issued(ExpiryCheck, Delete(user))]
    ensures LockDue(user, w) ==>
      if w.replies.disable.Some? then e.users == users && e.completion == Returned(Some(StoreFailed(w.replies.disable.value)))
      else e.users == Applied(users, Update(Disable(user)), None) && e.completion == Returned(None)
    ensures ExpiryDue(user, w) ==>
      if w.replies.expiryDelete.Some? then e.users == users && e.completion == Returned(Some(StoreFailed(w.replies.expiryDelete.value)))
      else e.users == users - {user.name} && e.completion == Returned(None)
  {
    var lock := LockDue(user, w);
    var current := if lock then Disable(user) else user;
    var log2 := log + if lock then [Issued(LockCheck, Update(current))] else [];
    if lock && w.replies.disable.Some? then
      Effect(queries, log2, users, Returned(Some(StoreFailed(w.replies.disable.value))))
    else
      var users2 := if lock then Applied(users, Update(current), None) else users;
      var expire := user.state == Disabled && user.name != Admin
        && !CheckDel(w.cal, current.lastLogin, current.lastTransition, current.creation, w.now);
      var log3 := log2 + if expire then [Issued(ExpiryCheck, Delete(current))] else [];
      if expire && w.replies.expiryDelete.Some? then
        Effect(queries, log3, users2, Returned(Some(StoreFailed(w.replies.expiryDelete.value))))
      else
        Effect(queries, log3, if expire then Applied(users2, Delete(current), None) else users2, Returned(None))
  }

  /** Which steps appear in the log after steps 2 and 3. */
  lemma LockAndExpireSteps(queries: seq<Request>, log: seq<Issued>, users: map<string, Account>, user: Account, w: World)
    ensures var e := LockAndExpire(queries, log, users, user, w);
      forall step :: IssuedBy(e.issued, step) <==>
        IssuedBy(log, step) || (step == LockCheck && LockDue(user, w)) || (step == ExpiryCheck && ExpiryDue(user, w))
  {
    var e := LockAndExpire(queries, log, users, user, w);
    var more := e.issued[|log|..];
    assert e.issued == log + more;
    IssuedByAppend(log, more);
    assert LockDue(user, w) ==> more == [Issued(LockCheck, Update(Disable(user)))];
    assert ExpiryDue(user, w) ==> more == [Issued(ExpiryCheck, Delete(user))];
    assert !LockDue(user, w) && !ExpiryDue(user, w) ==> more == [];
    forall step ensures IssuedBy(more, step) <==> (step == LockCheck && LockDue(user, w)) || (step == ExpiryCheck && ExpiryDue(user, w)) {
      if IssuedBy(more, step) {
        var i :| 0 <= i < |more| && more[i].step == step;
      }
      if (step == LockCheck && LockDue(user, w)) || (step == ExpiryCheck && ExpiryDue(user, w)) {
        assert more[0].step == step;
      }
    }
  }

  /** One reconciliation of the user called `name`. */
  function Reconciled(cfg: Config, users: map<string, Account>, name: string, w: World): (e: Effect)
    // Get: NotFound ends the call quietly, any other error is returned.
    ensures w.replies.get == Some(NotFound) || (w.replies.get.None? && name !in users) ==>
      e == Effect([], [], users, Returned(None))
    ensures w.replies.get.Some? && w.replies.get.value != NotFound ==>
      e == Effect([], [], users, Returned(Some(StoreFailed(w.replies.get.value))))
    // A user without a phone label is an error, with no request and no store call.
    ensures Fetched(users, name, w) && PhoneLabel !in users[name].labels ==>
      e == Effect([], [], users, Returned(Some(MissingPhoneLabel(users[name].name))))
    // The directory is asked once, with the user's phone number, exactly when the label is there.
    ensures e.queries == if Queried(users, name, w) then [DirectoryRequest(cfg, users[name], w)] else []
    // A panic in the directory check leaves no mutation.
    ensures e.completion == Panicked <==>
      Queried(users, name, w) && DirectoryVerdict(cfg, users[name], w) == IndexOutOfRange
    ensures e.completion == Panicked ==> e.issued == [] && e.users == users
  {
    if w.replies.get.Some? then Effect([], [], users, Returned(IgnoreNotFound(w.replies.get.value)))
    else if name !in users then Effect([], [], users, Returned(None))
    else
      var user := users[name];
      if PhoneLabel !in user.labels then Effect([], [], users, Returned(Some(MissingPhoneLabel(user.name))))
      else
        var request := DirectoryRequest(cfg, user, w);
        match CheckStatus(w.send(request))
        case IndexOutOfRange => Effect([request], [], users, Panicked)
        case Answered(keep) =>
          if keep then LockAndExpire([request], [], users, user, w)
          else
            var log := [Issued(DirectoryCheck, Delete(user))];
            if w.replies.directoryDelete.Some? then
              Effect([request], log, users, Returned(Some(StoreFailed(w.replies.directoryDelete.value))))
            else LockAndExpire([request], log, Applied(users, Delete(user), None), user, w)
  }

  /** The directory reported the user inactive. */
  predicate ReportedInactive(cfg: Config, users: map<string, Account>, name: string, w: World)
  {
    Queried(users, name, w) && DirectoryVerdict(cfg, users[name], w) == Answered(false)
  }

  /** What the directory step hands to steps 2 and 3 when it neither panicked nor failed. */
  lemma AfterDirectoryCheck(cfg: Config, users: map<string, Account>, name: string, w: World)
    requires PastDirectoryCheck(cfg, users, name, w)
    ensures var user := users[name];
      var inactive := ReportedInactive(cfg, users, name, w);
      Reconciled(cfg, users, name, w) ==
        LockAndExpire([DirectoryRequest(cfg, user, w)],
                      if inactive then [Issued(DirectoryCheck, Delete(user))] else [],
                      if inactive then users - {user.name} else users,
                      user, w)
  {
  }

  /**
   * An inactive directory answer issues a Delete of the user before anything
   * else; when that Delete fails its error is returned and nothing else is
   * issued, and when it succeeds the lock and expiry steps still run.
   */
  lemma InactiveUserDeletedFirst(cfg: Config, users: map<string, Account>, name: string, w: World)
    requires ReportedInactive(cfg, users, name, w)
    ensures var e := Reconciled(cfg, users, name, w);
      0 < |e.issued| && e.issued[0] == Issued(DirectoryCheck, Delete(users[name]))
    ensures var e := Reconciled(cfg, users, name, w);
      w.replies.directoryDelete.Some? ==>
        e.issued == [Issued(DirectoryCheck, Delete(users[name]))] && e.users == users
        && e.completion == Returned(Some(StoreFailed(w.replies.directoryDelete.value)))
    ensures var e := Reconciled(cfg, users, name, w);
      w.replies.directoryDelete.None? && LockDue(users[name], w) ==>
        e.issued == [Issued(DirectoryCheck, Delete(users[name])), Issued(LockCheck, Update(Disable(users[name])))]
  {
  }

  /**
   * Which steps issue a store call: the directory step iff the directory
   * reported the user inactive; step 2 iff the directory step let the call
   * go on and the entry state is Active, the user is not admin and CheckLock
   * says lock; step 3 likewise with Disabled and CheckDel. The state is read
   * once at entry, so steps 2 and 3 never both issue a call, and for admin
   * only the directory step can.
   */
  lemma StepsIssued(cfg: Config, users: map<string, Account>, name: string, w: World)
    ensures var e := Reconciled(cfg, users, name, w);
      IssuedBy(e.issued, DirectoryCheck) <==> ReportedInactive(cfg, users, name, w)
    ensures var e := Reconciled(cfg, users, name, w);
      IssuedBy(e.issued, LockCheck) <==> PastDirectoryCheck(cfg, users, name, w) && LockDue(users[name], w)
    ensures var e := Reconciled(cfg, users, name, w);
      IssuedBy(e.issued, ExpiryCheck) <==> PastDirectoryCheck(cfg, users, name, w) && ExpiryDue(users[name], w)
    ensures var e := Reconciled(cfg, users, name, w);
      !(IssuedBy(e.issued, LockCheck) && IssuedBy(e.issued, ExpiryCheck))
    ensures var e := Reconciled(cfg, users, name, w);
      name in users && users[name].name == Admin ==> !IssuedBy(e.issued, LockCheck) && !IssuedBy(e.issued, ExpiryCheck)
    ensures |Reconciled(cfg, users, name, w).issued| <= 2
  {
    var e := Reconciled(cfg, users, name, w);
    if PastDirectoryCheck(cfg, users, name, w) {
      var user := users[name];
      var inactive := ReportedInactive(cfg, users, name, w);
      var log := if inactive then [Issued(DirectoryCheck, Delete(user))] else [];
      AfterDirectoryCheck(cfg, users, name, w);
      LockAndExpireSteps([DirectoryRequest(cfg, user, w)], log,
                         if inactive then users - {user.name} else users, user, w);
      if inactive { assert log[0].step == DirectoryCheck; }
      forall step | step != DirectoryCheck ensures !IssuedBy(log, step) {
      }
    } else if ReportedInactive(cfg, users, name, w) {
      assert e.issued == [Issued(DirectoryCheck, Delete(users[name]))];
      assert e.issued[0].step == DirectoryCheck;
    } else {
      assert e.issued == [];
    }
  }

  /** Every Update the reconciler issues writes the entry record with its state set to Disabled, and nothing else changed. */
  lemma OnlyUpdateDisables(cfg: Config, users: map<string, Account>, name: string, w: World)
    ensures var e := Reconciled(cfg, users, name, w);
      forall i :: 0 <= i < |e.issued| && e.issued[i].call.Update? ==>
        name in users && e.issued[i] == Issued(LockCheck, Update(users[name].(state := Disabled)))
  {
  }

  /**
   * Store errors are never retried or hidden: every call but the last
   * succeeded, and the last call's error, if any, is what the call returns.
   */
  lemma StoreErrorsReturned(cfg: Config, users: map<string, Account>, name: string, w: World)
    ensures var e := Reconciled(cfg, users, name, w);
      forall i :: 0 <= i < |e.issued| - 1 ==> ReplyFor(e.issued[i].step, w.replies).None?
    ensures var e := Reconciled(cfg, users, name, w);
      e.issued != [] ==>
        var last := ReplyFor(e.issued[|e.issued| - 1].step, w.replies);
        e.completion == if last.Some? then Returned(Some(StoreFailed(last.value))) else Returned(None)
  {
  }

  /**
   * A reconciliation only removes the reconciled record or disables it; other
   * records are untouched and no record is created.
   */
  lemma StoreOnlyRetires(cfg: Config, users: map<string, Account>, name: string, w: World)
    requires Keyed(users)
    ensures Retired(users, Reconciled(cfg, users, name, w).users)
    ensures var after := Reconciled(cfg, users, name, w).users;
      forall k :: k != name ==> (k in after <==> k in users) && (k in after ==> after[k] == users[k])
  {
    if PastDirectoryCheck(cfg, users, name, w) {
      AfterDirectoryCheck(cfg, users, name, w);
    }
  }

  /** `after` is `before` with records removed or disabled, and still keyed by name. */
  ghost predicate Retired(before: map<string, Account>, after: map<string, Account>)
  {
    && Keyed(after)
    && forall k :: k in after ==> k in before && (after[k] == before[k] || after[k] == Disable(before[k]))
  }

  /** A reconciliation request: the user's name and what the call observes. */
  datatype Event = Event(name: string, world: World)

  /** The records after reconciling each event in turn. */
  function Replay(cfg: Config, users: map<string, Account>, events: seq<Event>): map<string, Account>
    decreases |events|
  {
    if events == [] then users
    else Replay(cfg, Reconciled(cfg, users, events[0].name, events[0].world).users, events[1..])
  }

  /**
   * However many reconciliations run, records only leave the store or move
   * to Disabled: none is created, re-enabled or otherwise edited.
   */
  lemma {:induction false} ReplayOnlyRetires(cfg: Config, users: map<string, Account>, events: seq<Event>)
    requires Keyed(users)
    ensures Retired(users, Replay(cfg, users, events))
    ensures var after := Replay(cfg, users, events);
      forall k :: k in after && after[k].state == Active ==> users[k].state == Active
    decreases |events|
  {
    if events != [] {
      var next := Reconciled(cfg, users, events[0].name, events[0].world).users;
      StoreOnlyRetires(cfg, users, events[0].name, events[0].world);
      ReplayOnlyRetires(cfg, next, events[1..]);
    }
  }

  /**
   * The controller: its configuration, the store it reconciles, and the
   * requests and store calls it has issued so far.
   */
  class UserReconciler {
    const config: Config
    var users: map<string, Account>
    var queries: seq<Request>
    var issued: seq<Issued>

    constructor (config: Config, users: map<string, Account>)
      ensures this.config == config && this.users == users
      ensures queries == [] && issued == []
    {
      this.config := config;
      this.users := users;
      queries := [];
      issued := [];
    }

    /** `r.Delete(ctx, user)`: logs the call and removes the record when the store accepts it. */
    method Delete(step: Step, user: Account, reply: Option<StoreError>) returns (err: Option<StoreError>)
      modifies this
      ensures err == reply
      ensures issued == old(issued) + [Issued(step, Mutation.Delete(user))]
      ensures users == Applied(old(users), Mutation.Delete(user), reply)
      ensures queries == old(queries)
    {
      issued := issued + [Issued(step, Mutation.Delete(user))];
      if reply.None? {
        users := users - {user.name};
      }
      err := reply;
    }

    /** `r.Update(ctx, user)`: logs the call and overwrites the record when the store accepts it and still holds it. */
    method Update(step: Step, user: Account, reply: Option<StoreError>) returns (err: Option<StoreError>)
      modifies this
      ensures err == reply
      ensures issued == old(issued) + [Issued(step, Mutation.Update(user))]
      ensures users == Applied(old(users), Mutation.Update(user), reply)
      ensures queries == old(queries)
    {
      issued := issued + [Issued(step, Mutation.Update(user))];
      if reply.None? && user.name in users {
        users := users[user.name := user];
      }
      err := reply;
    }

    /** `Reconcile`: the steps in order, each returning early on failure. */
    method Reconcile(name: string, w: World) returns (c: Completion)
      modifies this
      ensures var e := Reconciled(config, old(users), name, w);
        && queries == old(queries) + e.queries
        && issued == old(issued) + e.issued
        && users == e.users
        && c == e.completion
    {
      if w.replies.get.Some? {
        return Returned(IgnoreNotFound(w.replies.get.value));
      }
      if name !in users {
        return Returned(None);
      }
      var user := users[name];
      var state := user.state;
      var userName := user.name;

      if PhoneLabel !in user.labels {
        return Returned(Some(MissingPhoneLabel(userName)));
      }
      var tel := user.labels[PhoneLabel];

      var request := BuildRequest(config, tel, UnixSeconds(w.now), w.hash);
      queries := queries + [request];
      var verdict := CheckStatus(w.send(request));
      if verdict.IndexOutOfRange? {
        return Panicked;
      }
      if !verdict.keep {
        var err := Delete(DirectoryCheck, user, w.replies.directoryDelete);
        if err.Some? {
          return Returned(Some(StoreFailed(err.value)));
        }
      }

      var lastLogin, lastTransition, creation := user.lastLogin, user.lastTransition, user.creation;

      if state == Active && userName != Admin {
        if !CheckLock(w.cal, lastLogin, lastTransition, creation, w.now) {
          user := user.(state := Disabled);
          var err := Update(LockCheck, user, w.replies.disable);
          if err.Some? {
            return Returned(Some(StoreFailed(err.value)));
          }
        }
      }

      if state == Disabled && userName != Admin {
        if !CheckDel(w.cal, lastLogin, lastTransition, creation, w.now) {
          var err := Delete(ExpiryCheck, user, w.replies.expiryDelete);
          if err.Some? {
            return Returned(Some(StoreFailed(err.value)));
          }
        }
      }
      return Returned(None);
    }
  }
}
