# Account-expiration controller: the lifecycle policy engine in Dafny

This project models the decision core of a Kubernetes controller. The
controller disables or deletes KubeSphere users:

- **`CheckLock` / `CheckDel`** are the inactivity policies (`policy.dfy`).
  Each one reads three timestamps: creation, last login and last transition.
  Login and transition may be unset. From those and the current instant, it
  answers `true` ("keep") or `false` ("lock" or "delete"). The model keeps
  this inverted polarity and the Go `switch` order, where the first true case
  wins. Each policy is also given as a deadline, the last instant at which the
  account is still kept (`LockDeadline`, `DeleteDeadline`), and the policy is
  proved to equal "keep iff now is not past the deadline".
- **`CheckStatus`** asks an external identity directory, by phone number,
  whether the account is still active (`directory.dfy`). `BuildRequest`
  builds the signed request: the filter on the phone number, the token input
  `appId + appSecret + timestamp`, and the headers. `CheckStatus` reads the
  outcome of the exchange along the source's chain of early returns, and
  every failure fails open.
- **`Reconcile`** runs the steps for one user (`controller.dfy`). It fetches
  the user, takes a snapshot of its state, and requires the phone label.
  Step 1 deletes the user if the directory reports it inactive. Step 2
  disables an Active non-admin user that `CheckLock` wants locked. Step 3
  deletes a Disabled non-admin user that `CheckDel` wants deleted.
  `Reconciled` is the specification of one call.
  `UserReconciler.Reconcile` is the step-by-step method with early returns,
  over a store of records and a log of the store calls it issued. It is proved
  to have exactly the effect `Reconciled` describes.

Supporting modules:
- `clock.dfy` defines instants (nanoseconds since the Unix epoch, unbounded),
  Go's zero time, `IsZero` on an optional timestamp, `Unix()` (floor
  division), and a `Calendar` that stands for `time.Time.AddDate`.
- `decimal.dfy` renders an integer in base 10, as `strconv.FormatInt(i, 10)`
  does for the `X-Timestamp` header, and parses it back.

Where the design description and the code disagree, the model follows the code:

- After a successful step-1 deletion the code does not return, so steps 2 and
  3 still run (`InactiveUserDeletedFirst`, `StepsIssued`).
- A "not found" reply to a Delete is not treated as success. Every Delete or
  Update error is returned unchanged (`StoreErrorsReturned`). Only the
  initial Get ignores NotFound.
- The deletion window is six months. The log message at
  `internal/controller/user_controller.go:108` says nine.
- The `"admin"` exemption covers steps 2 and 3 only. Step 1 can delete
  `admin` (`StepsIssued`).
- If `totalResults` is not zero but `Resources` is empty, reading
  `Resources[0]` panics. The model makes this an explicit outcome
  (`IndexOutOfRange`, then `Panicked`) in which nothing is mutated.

Time is an abstract calendar. `AddDate(0, n, 0)` and `AddDate(0, 0, 7)` are
applications of `Calendar.addDate`, a function passed in as a parameter.
Every policy property holds for every calendar unless its lemma states a
`Monotone` or `Forward` precondition. Monotonicity in `now` needs no calendar
assumption: the shifted timestamps do not depend on `now`, and `Before` is
strict.

## Model

| member | source | states |
|---|---|---|
| Clock.Stamp | internal/controller/func.go:129-147 | a timestamp counts as set exactly when it is neither nil nor Go's zero instant, which is how `IsZero` on `*v1.Time` classifies it |
| Clock.UnixSeconds | internal/controller/func.go:40 | `Unix()` gives the whole seconds containing the instant, rounding down for instants before 1970 |
| Decimal.FormatNat | internal/controller/func.go:41 | a natural number renders as a non-empty string of decimal digits with no leading zero |
| Decimal.FormatInt | internal/controller/func.go:41 | `FormatInt(i, 10)` starts with a minus sign iff `i` is negative, and is followed by digits with no leading zero |
| Decimal.ParseFormatNat | internal/controller/func.go:41 | parsing the digits of `n` gives `n` back |
| Decimal.FormatIntRoundTrip | internal/controller/func.go:41 | parsing `FormatInt(i, 10)` gives `i` back, so the timestamp header carries the Unix time exactly |
| Decimal.FormatIntInjective | internal/controller/func.go:41 | distinct Unix times render as distinct timestamp strings |
| Policy.CheckLock | internal/controller/func.go:127-152 | `CheckLock` keeps the account iff `now` is not after the lock deadline. The deadline is the 3-month window from creation, from the transition (when it equals creation) or from login, raised to the 7-day grace after the transition when the transition differs from creation or a login is also set |
| Policy.CheckDel | internal/controller/func.go:154-173 | `CheckDel` keeps the account iff `now` is not after the deletion deadline: 6 months after creation when no timestamp is set, otherwise 6 months after the only set timestamp, or, when login and transition are both set, the later of the two 6-month deadlines (both must have passed) |
| Policy.LockRules | internal/controller/func.go:127-152 | the lock rules case by case. Neither set: lock iff creation+3mo < now. Transition only, equal to creation: lock iff creation+3mo < now. Transition only, different: lock iff transition+7d < now and creation+3mo < now. Login only: lock iff login+3mo < now. Both set: lock iff login+3mo < now and transition+7d < now |
| Policy.DeleteRules | internal/controller/func.go:154-173 | the deletion rules case by case: the only timestamp that is set (or creation when none is) must be 6 months old; when both are set, both must be |
| Policy.LockMonotoneInNow | internal/controller/func.go:127-152 | once `CheckLock` says lock at some instant, it says lock at every later instant |
| Policy.DeleteMonotoneInNow | internal/controller/func.go:154-173 | once `CheckDel` says delete at some instant, it says delete at every later instant |
| Policy.DeleteIgnoresCreation | internal/controller/func.go:160-170 | once a login or a transition is recorded, the creation instant does not affect `CheckDel` |
| Policy.LaterLoginNeverLocksSooner | internal/controller/func.go:142-151 | with an order-preserving calendar, if a later login time leads to locking, so does an earlier one |
| Policy.LaterLoginNeverDeletesSooner | internal/controller/func.go:164-170 | with an order-preserving calendar, if a later login time leads to deletion, so does an earlier one |
| Policy.LockScenarioStale | internal/controller/func.go:129-132 | never logged in and created four months ago: lock |
| Policy.LockScenarioTransitionAtCreation | internal/controller/func.go:135-136 | transition stamped at creation four months ago, never logged in: lock |
| Policy.LockScenarioRecentCreation | internal/controller/func.go:133-141 | created one month ago, transition ten days ago, never logged in: keep |
| Policy.LockScenarioBothExpired | internal/controller/func.go:147-148 | last login four months ago and transition ten days ago: lock |
| Policy.DeleteScenarioStale | internal/controller/func.go:156-159 | never logged in and created seven months ago: delete |
| Directory.BuildRequest | internal/controller/func.go:40-73 | the request has filter `phoneNumbers eq "<phone>"` and exactly four headers. The timestamp header is the canonical decimal rendering of the Unix time (no leading zero, so exactly one string per second) and parses back to it. The token is the hash of appId, appSecret and that timestamp, concatenated in that order. The app id and the JSON content type are the other two headers |
| Directory.CheckStatus | internal/controller/func.go:50-124 | returns true on a URL parse failure, a request-construction failure, a transport failure or timeout, a status other than 200, a body read failure, an empty body, or a zero match count. Otherwise it panics if the record list is empty, and else returns the first record's `active` flag |
| Directory.InactiveOnlyWhenConfirmed | internal/controller/func.go:96-124 | false comes only from a 200 response with a non-empty body, a non-zero match count and a first record that is inactive |
| Directory.SingleInactiveMatch | internal/controller/func.go:115-124 | one match, marked inactive, gives false; a well-formed body with a mistyped `active` field decodes to exactly this, so it too gives false |
| Directory.UndecodableBodyFailsOpen | internal/controller/func.go:115-122 | a non-empty body that is not valid JSON leaves a zero match count, so the check returns true (the decode error is ignored) |
| Directory.FiltersDistinguishPhones | internal/controller/func.go:46 | the phone number is quoted unchanged in the filter, so different phone numbers give different filters whatever the time of the request |
| Directory.TimestampsDistinguishRequests | internal/controller/func.go:40-44 | requests built at different Unix seconds carry different timestamp headers |
| Controller.Reconciled | internal/controller/user_controller.go:55-113 | a Get NotFound ends the call with no error and no effect, and any other Get error is returned. A missing phone label is an error with no request and no mutation. The directory is queried once, with the user's phone, exactly when the label is present. A directory panic mutates nothing |
| Controller.LockAndExpire | internal/controller/user_controller.go:86-112 | steps 2 and 3 read the entry state. Step 2 appends `Update(state := Disabled)` iff it is due, and step 3 appends a Delete iff it is due. A failed call's error is returned with the store unchanged, and a successful one writes or removes the record |
| Controller.LockAndExpireSteps | internal/controller/user_controller.go:91-110 | after steps 2 and 3, the log holds a step-2 call iff the lock is due and a step-3 call iff expiry is due, in addition to what the directory step left |
| Controller.AfterDirectoryCheck | internal/controller/user_controller.go:79-89 | when the directory step neither panics nor fails, the call continues into steps 2 and 3. The user is already removed if the directory reported it inactive |
| Controller.InactiveUserDeletedFirst | internal/controller/user_controller.go:79-100 | an inactive directory answer issues a Delete of the user first. If that Delete fails, its error is returned and nothing else is issued. If it succeeds and a lock is due, the Update is still issued afterwards |
| Controller.StepsIssued | internal/controller/user_controller.go:65-110 | step 1 issues iff the directory reports the user inactive. Step 2 issues iff the call gets past step 1, the entry state is Active, the name is not admin and `CheckLock` says lock. Step 3 issues likewise with Disabled and `CheckDel`. Steps 2 and 3 are never both issued, admin gets neither, and there are at most two calls |
| Controller.OnlyUpdateDisables | internal/controller/user_controller.go:92-100 | every Update writes the entry record with its state set to Disabled and nothing else changed |
| Controller.StoreErrorsReturned | internal/controller/user_controller.go:79-112 | every store call except the last succeeded, and the last call's error, if any, is returned unchanged; otherwise the call returns nil |
| Controller.StoreOnlyRetires | internal/controller/user_controller.go:79-110 | one reconciliation only removes or disables the reconciled record. Other records are untouched and none is created |
| Controller.ReplayOnlyRetires | internal/controller/user_controller.go:55-113 | over any sequence of reconciliations, records only leave the store or become Disabled. A record that is Active at the end was Active at the start |
| Controller.UserReconciler.constructor | internal/controller/user_controller.go:32-39 | a reconciler starts with its configuration and store, and with no requests or calls issued |
| Controller.UserReconciler.Delete | internal/controller/user_controller.go:81 | `r.Delete` is logged and removes the record exactly when the store accepts it, and its reply is returned |
| Controller.UserReconciler.Update | internal/controller/user_controller.go:95 | `r.Update` is logged and overwrites the record exactly when the store accepts it and still holds the record, and its reply is returned; it never creates a record |
| Controller.UserReconciler.Reconcile | internal/controller/user_controller.go:55-113 | the step-by-step method sends exactly the requests and issues exactly the store calls `Reconciled` describes, leaves the store as it says and returns its completion |

## Left out

- `SetupWithManager` is left out: it reads secret files, prints them, may call `os.Exit` and registers the controller, all of which is process bootstrap. The configuration is a `Config` value.
- The HTTP mechanics of `CheckStatus` are left out: `url.Parse`, `http.NewRequest`, percent-encoding of the query (`url.Values.Encode`), header canonicalisation, the 5-second context timeout, `client.Do` and `io.ReadAll`. Their outcome is the `Exchange` value that the `send` parameter returns.
- `sha256Hash` and its hex encoding are left out: the `hash` parameter stands for them.
- `json.Unmarshal` is left out: the body carries the `Content` that decoding left, which is `EmptyContent` when the body is not valid JSON.
- Directory.CheckStatus: partial decoding is not modelled as a function of the bytes. A well-formed body with a mistyped field keeps the fields that did decode, and the ignored error does not fail open: `{"totalResults":1,"Resources":[{"active":"no"}]}` reports the user inactive (and Reconcile deletes it), and `{"totalResults":1,"Resources":{}}` panics. The model admits both, since `decoded` may be any `Content`, but proves fail-open only for bodies that are not valid JSON.
- The calendar semantics of Go's `AddDate`, including month-end normalisation, are a `Calendar` parameter.
- Policy.LaterLoginNeverLocksSooner: holds only for a `Monotone` calendar, and Go's `AddDate` is not monotone at month ends. 2022-11-30 plus three months normalises to 2023-03-02, which is after 2022-12-01 plus three months (2023-03-01).
- Policy.LaterLoginNeverDeletesSooner: holds only for a `Monotone` calendar, for the same reason.
- The scenario lemmas (Policy.LockScenarioStale and the others) assume a `Forward` calendar, in which adding more months or more days gives a strictly later instant. They do not hold for an arbitrary calendar.
- Integer widths are not modelled: instants and Unix seconds are unbounded integers, not Go's `int64`.
- Logging calls are left out, and so is the user's description annotation, which is only logged.
- `ctrl.Result` is always empty in the source and is not modelled.
- The store's own rules (optimistic concurrency, finalizers) are not modelled. Each call's reply is the `Replies` input, and a successful reply means that the store applied the write; a successful Update of a record that step 1 already removed changes nothing, since an update never creates a record.
- Event delivery, requeueing and whether the host process recovers from a panic are not modelled: the model stops at `Panicked`.
- The second copy of `type.go` (under `account-expiration-controller/`) adds only a `userName` field that nothing reads, so it is not modelled.
