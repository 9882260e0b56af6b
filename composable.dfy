/** The `authentication` closure as an object: the variables it captures
    (`storage`, `refreshPromise`, `refreshTimeout`) become fields, the timer
    facility behind `setTimeout`/`clearTimeout` becomes the map of pending
    timers, and every asynchronous operation is split into steps at the
    suspension points the model keeps. Each public operation that changes
    state is proved to move the object exactly as the matching function of
    SessionSpec moves the session value, and to keep SessionSpec.Inv; the
    timer-facility helpers ClearTimeout and SetTimeout are stated on the
    state alone. */
module Composable {
  import opened AuthTypes
  import S = SessionSpec

  class AuthSession {
    const config: Config

    // the storage slot
    var storage: Option<AuthData>
    // the shared in-flight slot, the refreshes not yet settled, and among
    // them those still waiting on their storage read
    var refreshPromise: Option<nat>
    var outstanding: set<nat>
    var nextRefresh: nat
    var unsent: map<nat, Option<AuthData>>
    // the timer slot, and the timers still pending in the timer facility
    var refreshTimeout: Option<nat>
    var timers: map<nat, S.Timer>
    var nextTimer: nat

    /** The object's state as a SessionSpec value. */
    function State(): S.Session
      reads this
    {
      S.Session(storage, refreshPromise, outstanding, nextRefresh, unsent, refreshTimeout, timers, nextTimer)
    }

    ghost predicate Valid()
      reads this
    {
      S.Inv(config, State())
    }

    /** `authentication(mode, config)(client)` over a store that already
        holds `persisted`. */
    constructor (mode: Option<Mode>, overrides: ConfigOverrides, persisted: Option<AuthData>)
      ensures config == ResolveConfig(mode, overrides)
      ensures State() == S.Initial(persisted)
      ensures Valid()
    {
      config := ResolveConfig(mode, overrides);
      storage := persisted;
      refreshPromise := None;
      outstanding := {};
      nextRefresh := 0;
      unsent := map[];
      refreshTimeout := None;
      timers := map[];
      nextTimer := 1;
    }

    /** `clearTimeout(h)` */
    method ClearTimeout(h: nat)
      modifies this
      ensures State() == S.ClearTimer(old(State()), h)
    {
      timers := timers - {h};
    }

    /** `setTimeout(callback, delay)` at clock `now`: a fresh handle, whose
        timer is due after `delay`, or at once when `delay` overflows the
        primitive's 32-bit delay. */
    method SetTimeout(delay: int, now: int) returns (h: nat)
      modifies this
      ensures h == old(nextTimer)
      ensures State() == old(State()).(timers := old(timers)[h := S.Timer(delay, TimerDue(now, delay))],
                                       nextTimer := h + 1)
    {
      h := nextTimer;
      timers := timers[h := S.Timer(delay, TimerDue(now, delay))];
      nextTimer := nextTimer + 1;
    }

    method ResetStorage()
      requires Valid()
      modifies this
      ensures Valid()
      ensures State() == S.ResetStorage(old(State()))
    {
      storage := Some(EMPTY);
    }

    /** `setCredentials(data)` at clock `now`; returns the snapshot as
        stamped, which is also what storage now holds. */
    method SetCredentials(data: AuthData, now: int) returns (stamped: AuthData)
      requires Valid()
      modifies this
      ensures Valid()
      ensures stamped == Stamp(data, now)
      ensures State() == S.SetCredentials(config, old(State()), data, now)
    {
      var expires := data.expires.GetOr(0);
      stamped := data.(expiresAt := Some(now + expires));
      storage := Some(stamped);
      if config.autoRefresh && expires > config.msRefreshBeforeExpires && expires < MAX_INT32 {
        if refreshTimeout.Some? {
          ClearTimeout(refreshTimeout.value);
        }
        var h := SetTimeout(expires - config.msRefreshBeforeExpires, now);
        refreshTimeout := Some(h);
      }
      S.SetCredentialsPreservesInv(config, old(State()), data, now);
    }

    /** The synchronous part of `refresh()`: refresh `id` reads the stored
        snapshot and its promise is published in the shared slot. */
    method Refresh() returns (id: nat)
      requires Valid()
      modifies this
      ensures Valid()
      ensures id == old(nextRefresh) && id !in old(outstanding)
      ensures id in unsent && unsent[id] == old(storage)
      ensures State() == S.RefreshStart(old(State()))
    {
      id := nextRefresh;
      nextRefresh := nextRefresh + 1;
      outstanding := outstanding + {id};
      unsent := unsent[id := storage];
      refreshPromise := Some(id);
    }

    /** Refresh `id` resumes after its storage read: resets storage and
        returns the body it sends, built from the snapshot it read. */
    method RefreshSend(id: nat) returns (body: SessionBody)
      requires Valid() && id in unsent
      modifies this
      ensures Valid()
      ensures body == S.RefreshBody(config, old(State()), id)
      ensures State() == S.RefreshSend(old(State()), id)
    {
      var authData := unsent[id];
      unsent := unsent - {id};
      ResetStorage();
      body := SessionBodyFor(config.mode, authData);
    }

    /** Refresh `id` settles with `outcome` at clock `now`; returns what the
        refresh promise resolves to. */
    method RefreshSettle(id: nat, outcome: Outcome, now: int) returns (result: Outcome)
      requires Valid() && id in outstanding && id !in unsent
      modifies this
      ensures Valid()
      ensures result == S.Resolution(outcome, now)
      ensures State() == S.RefreshSettle(config, old(State()), id, outcome, now)
    {
      outstanding := outstanding - {id};
      match outcome
      case Success(data) =>
        var stamped := SetCredentials(data, now);
        result := Success(stamped);
      case Failure =>
        result := Failure;
    }

    /** `refreshIfExpired` up to its `await`: starts a refresh only when the
        slot is empty and the stored expiry is known, non-zero and within the
        margin; returns the refresh it then awaits. */
    method RefreshIfExpired(now: int) returns (awaited: Option<nat>)
      requires Valid()
      modifies this
      ensures Valid()
      ensures awaited == refreshPromise
      ensures State() == S.RefreshIfExpired(config, old(State()), now)
    {
      var authData := storage;
      if refreshPromise.Some? || !(authData.Some? && NonZero(authData.value.expiresAt)) {
        awaited := refreshPromise;
        return;
      }
      if authData.value.expiresAt.value < now + config.msRefreshBeforeExpires {
        var _ := Refresh();
      }
      awaited := refreshPromise;
    }

    /** `activeRefresh` once the promise it awaited has settled. */
    method ActiveRefreshSettled(awaited: Option<nat>)
      requires Valid()
      requires awaited.None? || awaited.value !in outstanding
      modifies this
      ensures Valid()
      ensures State() == S.ActiveRefreshDone(old(State()))
    {
      refreshPromise := None;
    }

    /** `getToken()` up to its `await`; returns the refresh it awaits. */
    method GetToken(now: int) returns (awaited: Option<nat>)
      requires Valid()
      modifies this
      ensures Valid()
      ensures awaited == refreshPromise
      ensures awaited.Some? ==> awaited == old(refreshPromise) || awaited == Some(old(nextRefresh))
      ensures State() == S.RefreshIfExpired(config, old(State()), now)
    {
      awaited := RefreshIfExpired(now);
    }

    /** `getToken()` once the awaited refresh has settled, whatever its
        outcome: the slot is emptied and the stored access token returned. */
    method GetTokenResume(awaited: Option<nat>) returns (token: Option<string>)
      requires Valid()
      requires awaited.None? || awaited.value !in outstanding
      modifies this
      ensures Valid()
      ensures token == TokenOf(storage)
      ensures State() == S.ActiveRefreshDone(old(State()))
    {
      ActiveRefreshSettled(awaited);
      var data := storage;
      token := if data.Some? then data.value.accessToken else None;
    }

    /** The pending timer `h` fires at clock `now`: the timer slot is emptied
        and refresh `id` is started; it goes on through RefreshSend and
        RefreshSettle, and its outcome is discarded. */
    method TimerFires(h: nat, now: int) returns (id: nat)
      requires Valid()
      requires h in timers && now >= timers[h].fireAt
      modifies this
      ensures Valid()
      ensures id == old(nextRefresh) && id in unsent && unsent[id] == old(storage)
      ensures State() == S.TimerFires(old(State()), h)
    {
      timers := timers - {h};
      refreshTimeout := None;
      id := Refresh();
    }

    /** `login(email, password, options)` up to its request: resets storage
        and returns the body it sends. */
    method Login(email: string, password: string, options: LoginOptions) returns (body: LoginBody)
      requires Valid()
      modifies this
      ensures Valid()
      ensures body == LoginBodyFor(email, password, options, config.mode)
      ensures State() == S.LoginStart(old(State()))
    {
      ResetStorage();
      body := LoginBodyFor(email, password, options, config.mode);
    }

    /** The login request settles with `outcome` at clock `now`. */
    method LoginSettle(outcome: Outcome, now: int) returns (result: Outcome)
      requires Valid()
      modifies this
      ensures Valid()
      ensures result == S.Resolution(outcome, now)
      ensures State() == S.LoginSettle(config, old(State()), outcome, now)
    {
      match outcome
      case Success(data) =>
        var stamped := SetCredentials(data, now);
        result := Success(stamped);
      case Failure =>
        result := Failure;
    }

    /** `logout()` up to its request: reads storage and returns the body it
        sends; nothing changes yet. */
    method Logout() returns (body: SessionBody)
      ensures body == SessionBodyFor(config.mode, storage)
      ensures body.refreshToken.Some? ==> config.mode == Json
    {
      body := SessionBodyFor(config.mode, storage);
    }

    /** The logout request settles: on success the timer is stopped and
        storage reset; a failure rejects and leaves everything as it was. */
    method LogoutSettle(outcome: Outcome) returns (ok: bool)
      requires Valid()
      modifies this
      ensures Valid()
      ensures ok == outcome.Success?
      ensures State() == S.LogoutSettle(old(State()), outcome)
    {
      ok := outcome.Success?;
      if ok {
        StopRefreshing();
        ResetStorage();
      }
    }

    /** `stopRefreshing()` */
    method StopRefreshing()
      requires Valid()
      modifies this
      ensures Valid()
      ensures State() == S.StopRefreshing(old(State()))
    {
      if refreshTimeout.Some? {
        ClearTimeout(refreshTimeout.value);
      }
    }

    /** `setToken(token)` */
    method SetToken(token: Option<string>)
      requires Valid()
      modifies this
      ensures Valid()
      ensures State() == S.SetToken(old(State()), token)
    {
      storage := Some(AuthData(token, None, None, None));
    }
  }
}
