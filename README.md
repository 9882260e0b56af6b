# Authentication session of the Directus SDK

This project models the `authentication` composable of the Directus JavaScript
SDK (`sdk/src/auth/composable.ts`). The composable is a closure that owns a
credential snapshot in a storage slot, a shared slot for the in-flight refresh
promise, and a slot for the background refresh timer. It exposes `login`,
`logout`, `refresh`, `getToken`, `setToken` and `stopRefreshing`, built on the
private helpers `resetStorage`, `setCredentials`, `refreshIfExpired` and
`activeRefresh`.

The model has three modules:

- `AuthTypes` (`auth_types.dfy`) holds the records (`AuthData`, `Mode`,
  `Config`, `LoginOptions`, the request bodies) and the constants
  `defaultConfigValues` and `MAX_INT32`. It also holds the pure rules the
  closure applies:
  - how `expires_at` is derived;
  - when a timer is armed and with what delay;
  - which fields the refresh, logout and login bodies carry;
  - when a stored snapshot counts as expiring;
  - what `getToken` reads back.
- `SessionSpec` (`session_spec.dfy`) describes the closure's whole state as a
  value (`Session`), with one function per step that changes it. It defines the
  invariant every reachable state keeps (`Inv`). Its lemmas cover each step and
  whole traces of events.
- `Composable` (`composable.dfy`) holds the class `AuthSession`. Its fields are
  the captured variables and its methods are the closure's operations, written
  imperatively. Each public operation that changes state is proved to move the
  object exactly as the matching `SessionSpec` function moves the value, and
  to keep `Inv`. The timer-facility helpers `ClearTimeout` and `SetTimeout`
  are stated on the state alone.

Clocks and network outcomes are parameters. Every asynchronous operation is
split into steps at the suspension points the model keeps; the others are
folded into the step around them (see "Left out"). `login` has a step that runs up to
its request and returns the body, and a step that runs once the request
settles with `Success(data)` or `Failure`. `logout` is split the same way.
`refresh` has three steps:

- `Refresh` reads the stored snapshot and publishes its promise in the shared
  slot; both happen synchronously in `refresh()`.
- `RefreshSend` runs after that read resolves. It resets storage and sends the
  body built from the snapshot it read.
- `RefreshSettle` runs once the response arrives.

These steps make the in-flight slot observable between them.

The timer facility is a map from handle to pending timer. `setTimeout` and
`clearTimeout` add to and remove from it. A timer firing is the method
`TimerFires`, which may be called no earlier than the timer is due. A timer is
due `delay` after it is armed, except that the primitive keeps its delay in a
32-bit integer: a delay above 2^31 - 1 ms is not waited for. Node.js runs such
a timer after 1 ms. Browsers wrap the delay to a signed 32-bit integer and run
it at once, or after the small delay the wrap leaves. The model makes it due
at once (`TimerDue`), and a due timer may fire at any later instant, so all
of these runs are among the model's.

### Behaviour of the code worth knowing

- `setCredentials` sets `expires_at = now + (expires ?? 0)`. When `expires` is
  null or zero, `expires_at` is `now` (composable.ts:71-72).
- An explicit `refresh()` never deduplicates. It starts a new exchange every
  time and overwrites the shared slot (composable.ts:122). Lemma
  `RefreshAlwaysStartsNewExchange` shows this. Only `refreshIfExpired` defers
  to a refresh already in the slot.
- `refresh()` reads storage synchronously (composable.ts:90) but resets it
  only after that read resolves (composable.ts:91). Two `refresh()` calls in
  the same turn therefore both send the snapshot from before either reset. In
  json mode both send the same refresh token
  (`OverlappingRefreshesSendSameToken`).
- The shared slot is emptied only by `activeRefresh` (composable.ts:50), never
  when a refresh settles. A refresh started by `refresh()` or by the timer
  therefore stays in the slot, so the next `getToken` skips its expiry check
  (`SettledRefreshStillBlocksSlot`).
- `activeRefresh` empties the slot even when a newer refresh has taken it in
  the meantime. The next `getToken` can then start a second exchange while
  that newer one is still on the wire (`ActiveRefreshCanOrphanNewerRefresh`).
- `logout` clears local state only when its request succeeds. On failure it
  rejects and leaves everything as it was (composable.ts:179-182).
- A refresh still on the wire when `logout` succeeds calls `setCredentials`
  when it settles (composable.ts:117). It stores its credentials again and may
  arm a new timer, so the all-null store that `logout` leaves does not last
  (`RefreshSettlingAfterLogoutRestoresCredentials`).
- `stopRefreshing` clears the pending timer but keeps its handle in the slot
  (composable.ts:184-188).
- A failure of the refresh that `refreshIfExpired` starts does reach its
  caller. The `.catch` at composable.ts:62-64 is on a separate chain, and
  `activeRefresh` awaits the same promise without a catch (composable.ts:48),
  so `refreshIfExpired` rejects. Only `getToken`'s catch
  (composable.ts:190-192) swallows the error, and `getToken` then returns
  null (`FailedRefreshGetTokenReturnsNull`).
- The armed delay is guaranteed below 2^31 - 1 only when
  `msRefreshBeforeExpires` is not negative. In general only
  delay + margin < 2^31 - 1 holds (`ArmDelay`, `Inv`). The guard at
  composable.ts:75 bounds the lifetime, not the delay. With a negative margin
  a lifetime just under 2^31 - 1 passes the guard and gives a delay the timer
  primitive cannot hold, so the timer fires at once. If every refresh answers
  with the same lifetime, each one arms the next timer due at once again and
  the background refresh repeats without pause. For example, margin -10 ms and
  `expires` = 2^31 - 2 give a delay of 2^31 + 8 (`NegativeMarginRefreshLoop`).

## Model

| member | source | states |
|---|---|---|
| `AuthTypes.DefaultConfig` | sdk/src/auth/composable.ts:15-18 | with no mode and no overrides the session is in cookie mode with a 30000 ms margin and auto-refresh on |
| `AuthTypes.Stamp` | sdk/src/auth/composable.ts:70-72 | the stored snapshot has `expiresAt = now + (expires ?? 0)` and every other field exactly as the response gave it |
| `AuthTypes.StampDerivesExpiry` | sdk/src/auth/composable.ts:71-72 | a supplied `expires_at` is ignored (always derived), and stamping twice at the same instant changes nothing |
| `AuthTypes.ArmDelay` | sdk/src/auth/composable.ts:75-84 | a timer is armed iff auto-refresh is on and margin < lifetime < 2^31-1; its delay is positive, equals lifetime minus margin, and is below 2^31-1 when the margin is not negative |
| `AuthTypes.NoTimerOutsideWindow` | sdk/src/auth/composable.ts:20-25 | a lifetime of 2^31-1 ms or more, or one not above the margin, never arms a timer |
| `AuthTypes.SessionBodyFor` | sdk/src/auth/composable.ts:104-108 | the refresh/logout body always carries the mode, and carries the stored refresh token iff the mode is json and that token is present and non-empty |
| `AuthTypes.CookieBodyHasNoToken` | sdk/src/auth/composable.ts:170-174 | in cookie mode no refresh token is ever sent |
| `AuthTypes.LoginBodyFor` | sdk/src/auth/composable.ts:132-134 | the login body carries email, password, the options' one-time code, and the options' mode if given, else the session mode |
| `AuthTypes.TokenOf` | sdk/src/auth/composable.ts:194-195 | `getToken` returns the stored access token, or null when nothing is stored |
| `AuthTypes.TimerMatchesExpiryTest` | sdk/src/auth/composable.ts:61 | for an armed snapshot stamped at `now` with delay `d`, the on-demand expiry test holds exactly after `now + d`; when `d` fits in 32 bits that is exactly after the timer is due, and when it does not the timer is due at `now` while the test is still false |
| `AuthTypes.ShortLifetimeExpiresAtOnce` | sdk/src/auth/composable.ts:61-75 | a lifetime below the margin arms no timer and is already expiring at the instant it is stored |
| `SessionSpec.InitialInv` | sdk/src/auth/composable.ts:38-40 | a new session (empty slots, no timers) satisfies the session invariant |
| `SessionSpec.AtMostOneTimer` | sdk/src/auth/composable.ts:75-79 | in every valid state at most one background timer is pending |
| `SessionSpec.Resolution` | sdk/src/auth/composable.ts:114-119 | refresh and login resolve to the stamped response on success and reject on failure |
| `SessionSpec.RefreshIfExpired` | sdk/src/auth/composable.ts:54-68 | a refresh is started (one new exchange) exactly when the slot is empty and the stored expiry is known, non-zero and within the margin; otherwise nothing changes |
| `SessionSpec.SetCredentialsPreservesInv` | sdk/src/auth/composable.ts:70-86 | `setCredentials` keeps the session invariant |
| `SessionSpec.NegativeMarginRefreshLoop` | sdk/src/auth/composable.ts:75-84 | with margin -10 ms and a lifetime of 2^31 - 2 ms, `setCredentials` arms a timer due at once; its refresh, answered with the same lifetime, arms the next one due at once again |
| `SessionSpec.SetCredentialsEffect` | sdk/src/auth/composable.ts:70-86 | `setCredentials` overwrites storage with the stamped snapshot; when arming, the new timer is the only pending one, has the rule's delay and is due margin before the stored expiry when its delay fits in 32 bits and at once when it does not; otherwise the timers are untouched |
| `SessionSpec.RefreshAlwaysStartsNewExchange` | sdk/src/auth/composable.ts:88-125 | an explicit refresh always adds a fresh exchange and takes over the slot, even while another refresh is outstanding |
| `SessionSpec.RefreshReadsBeforeReset` | sdk/src/auth/composable.ts:89-110 | the refresh body is built from the snapshot read when `refresh()` was called, and storage is all-null once the request is sent |
| `SessionSpec.OverlappingRefreshesSendSameToken` | sdk/src/auth/composable.ts:88-125 | two refreshes started in the same turn send the same body, built from the snapshot before either reset |
| `SessionSpec.RefreshOutcome` | sdk/src/auth/composable.ts:90-119 | after a refresh fails storage is all-null; after it succeeds storage holds exactly the snapshot the refresh resolves to |
| `SessionSpec.RefreshIfExpiredDefers` | sdk/src/auth/composable.ts:57-65 | with a refresh in the slot `getToken` changes nothing; with an empty slot and an expiring snapshot it publishes a new refresh |
| `SessionSpec.SettledRefreshStillBlocksSlot` | sdk/src/auth/composable.ts:46-52 | a refresh that settled stays in the slot, so the next expiry check starts nothing |
| `SessionSpec.ActiveRefreshCanOrphanNewerRefresh` | sdk/src/auth/composable.ts:46-52 | `activeRefresh` empties the slot even when it holds a refresh still outstanding, after which an expiring snapshot makes the next check start a second exchange beside it |
| `SessionSpec.LogoutEffect` | sdk/src/auth/composable.ts:179-182 | a successful logout leaves no pending timer and all-null storage; a failed one changes nothing |
| `SessionSpec.StopRefreshingKeepsHandle` | sdk/src/auth/composable.ts:184-188 | `stopRefreshing` cancels every pending timer, keeps the handle in the slot and leaves storage alone |
| `SessionSpec.SetTokenThenGetToken` | sdk/src/auth/composable.ts:197-204 | after `setToken(t)`, `getToken` starts no refresh; when the slot is empty or its refresh has settled, it resumes at once and returns `t` |
| `SessionSpec.FailedRefreshGetTokenReturnsNull` | sdk/src/auth/composable.ts:189-195 | when the refresh `getToken` starts fails, `getToken` can still resume and returns null |
| `SessionSpec.RefreshSettlingAfterLogoutRestoresCredentials` | sdk/src/auth/composable.ts:114-119 | a refresh settling after a successful logout stores its credentials again and arms a timer |
| `SessionSpec.LoginThenGetToken` | sdk/src/auth/composable.ts:129-155 | after a successful login with an empty or settled slot (`login` does not clear it), `getToken` before the margin is reached starts no refresh, resumes at once and returns the issued access token |
| `SessionSpec.StepPreservesInv` | sdk/src/auth/composable.ts:42-204 | every operation and every settling keeps the session invariant |
| `SessionSpec.RunPreservesInv` | sdk/src/auth/composable.ts:42-204 | every state reachable by any sequence of events from a valid state is valid |
| `SessionSpec.OneTimerOnEveryTrace` | sdk/src/auth/composable.ts:75-79 | on every trace from a new session at most one background timer is pending |
| `SessionSpec.ConcurrentGetTokensShareOneRefresh` | sdk/src/auth/composable.ts:54-68 | any number of back-to-back `getToken` calls send at most one refresh exchange between them, and none while a refresh is in the slot |
| `Composable.AuthSession.constructor` | sdk/src/auth/composable.ts:35-40 | the config is the defaults overridden by the caller's values, both slots are empty and storage holds what the store held |
| `Composable.AuthSession.ClearTimeout` | sdk/src/auth/composable.ts:76 | `clearTimeout` removes the timer from the pending timers |
| `Composable.AuthSession.SetTimeout` | sdk/src/auth/composable.ts:78-84 | `setTimeout` returns a fresh handle whose timer is due after the delay, or at once when the delay exceeds 2^31 - 1 |
| `Composable.AuthSession.ResetStorage` | sdk/src/auth/composable.ts:42-44 | storage becomes the all-null snapshot and nothing else changes |
| `Composable.AuthSession.SetCredentials` | sdk/src/auth/composable.ts:70-86 | moves the session as `SessionSpec.SetCredentials` and returns the stamped snapshot it stored |
| `Composable.AuthSession.Refresh` | sdk/src/auth/composable.ts:88-125 | publishes a new exchange in the slot and records the snapshot its storage read returns; storage is not reset yet |
| `Composable.AuthSession.RefreshSend` | sdk/src/auth/composable.ts:91-114 | after the read resolves, resets storage and returns the body built from the snapshot read |
| `Composable.AuthSession.RefreshSettle` | sdk/src/auth/composable.ts:114-119 | the settled exchange leaves the outstanding set; on success the response is stored via `setCredentials` and returned stamped |
| `Composable.AuthSession.RefreshIfExpired` | sdk/src/auth/composable.ts:54-68 | moves the session as `SessionSpec.RefreshIfExpired` and returns the refresh it awaits |
| `Composable.AuthSession.ActiveRefreshSettled` | sdk/src/auth/composable.ts:46-52 | once the awaited promise has settled the slot is emptied, whatever it holds by then |
| `Composable.AuthSession.GetToken` | sdk/src/auth/composable.ts:189-192 | runs the expiry check; the refresh it awaits is the one already in the slot or the one it just started |
| `Composable.AuthSession.GetTokenResume` | sdk/src/auth/composable.ts:190-195 | never fails: empties the slot and returns the stored access token or null |
| `Composable.AuthSession.TimerFires` | sdk/src/auth/composable.ts:78-83 | a due timer empties the timer slot and starts a refresh that reads the current snapshot |
| `Composable.AuthSession.Login` | sdk/src/auth/composable.ts:129-149 | resets storage before sending, and returns the login body |
| `Composable.AuthSession.LoginSettle` | sdk/src/auth/composable.ts:151-154 | on success stores the response via `setCredentials` and returns it stamped; a failure rejects and changes nothing |
| `Composable.AuthSession.Logout` | sdk/src/auth/composable.ts:156-176 | reads storage and returns the logout body, which carries a refresh token only in json mode |
| `Composable.AuthSession.LogoutSettle` | sdk/src/auth/composable.ts:179-182 | on success stops the timer and resets storage; on failure rejects and changes nothing |
| `Composable.AuthSession.StopRefreshing` | sdk/src/auth/composable.ts:184-188 | clears the timer in the slot if there is one and changes nothing else |
| `Composable.AuthSession.SetToken` | sdk/src/auth/composable.ts:197-204 | storage becomes `{token, null, null, null}` and nothing else changes |

## Left out

- HTTP transport: `request`, `extractData`, `getRequestUrl`, `getAuthEndpoint`, fetch options, headers and the `credentials` flag. These are calls into files that are not part of this model. Responses are the `Outcome` parameter of the settle methods, and bodies are records instead of JSON strings.
- `LoginOptions.provider` only selects the endpoint path through `getAuthEndpoint`, which is not part of this model.
- Real `setTimeout`, `clearTimeout` and `new Date().getTime()`. Time is a `now` parameter and timers are a map of pending timers. A timer fires only when `TimerFires` is called; the model does not force it to fire.
- The event loop. `refresh` is split at its storage read. Other suspension points are folded into the step around them: the storage read in `refreshIfExpired` (line 55), after which the slot test (line 57) and the clock read (line 61) run; `getToken`'s final storage read; and `logout`'s storage read (line 157). The model therefore runs the slot test and the clock read in the same step as the call, and so admits more runs than the source. For example, `getToken(); refresh();` in one turn sends one exchange in the source: `refresh()` fills the slot before `getToken` resumes, and `getToken` then defers to it. The model can send two, because `GetToken` tests the still-empty slot at once. A snapshot changing during those reads is not modelled either.
- Pending logins, logouts and token reads. `LoginSettled` and `LogoutSettled` events are always enabled, so a trace may settle a login or logout that never started, or settle one twice. `GetTokenResumed` is enabled whenever its awaited refresh is absent or settled, so a trace may empty the shared slot with no `getToken` pending. The invariants and trace lemmas hold over this larger set of runs.
- `memoryStorage` and other storage backends are not part of this model. Storage is a plain field whose get and set take effect at once.
- Composable.AuthSession.SetCredentials: stores the stamped value. It does not model that the source mutates the caller's object and stores that same object, which aliases storage with the value `login` and `refresh` return.
- Numbers are unbounded integers. JavaScript double arithmetic, `NaN` and the difference between `undefined` and `null` (for example `'otp' in options` with an undefined value) are not modelled.
- Rejections carry no error value. The error that `getToken` and the timer swallow is not modelled.
- `packages/market-updater` and the database migration are not part of this model. They are I/O plumbing outside the authentication core.
