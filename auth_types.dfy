/** Records, constants and the pure rules of the SDK's authentication
    composable: how a snapshot is stamped with its expiry, when a background
    timer is armed and with what delay, which fields the refresh, logout and
    login bodies carry, and when a stored snapshot counts as expiring. */
module AuthTypes {

  datatype Option<+T> = None | Some(value: T) {
    /** `x ?? default` */
    function GetOr(default: T): T {
      match this
      case Some(v) => v
      case None => default
    }
  }

  /** `AuthenticationMode`: in `Cookie` mode the server keeps the refresh
      token in a cookie, in `Json` mode the client holds and sends it. */
  datatype Mode = Cookie | Json

  /** `AuthenticationData`, the credential snapshot kept in storage.
      `expires` is a lifetime in milliseconds, `expiresAt` an epoch instant. */
  datatype AuthData = AuthData(
    accessToken: Option<string>,
    refreshToken: Option<string>,
    expires: Option<int>,
    expiresAt: Option<int>)

  /** The settled outcome of one network request: the response's snapshot,
      or a rejection. */
  datatype Outcome = Success(data: AuthData) | Failure

  /** The resolved configuration of one session; it never changes. */
  datatype Config = Config(mode: Mode, msRefreshBeforeExpires: int, autoRefresh: bool)

  /** The caller's partial configuration; `None` is a key left out. */
  datatype ConfigOverrides = ConfigOverrides(msRefreshBeforeExpires: Option<int>, autoRefresh: Option<bool>)

  /** `LoginOptions`; `provider` only selects the endpoint path. */
  datatype LoginOptions = LoginOptions(otp: Option<string>, mode: Option<Mode>, provider: Option<string>)

  /** JSON body of the refresh and logout requests. */
  datatype SessionBody = SessionBody(mode: Mode, refreshToken: Option<string>)

  /** JSON body of the login request. */
  datatype LoginBody = LoginBody(email: string, password: string, otp: Option<string>, mode: Mode)

  /** `defaultConfigValues` */
  const DEFAULT_MS_REFRESH_BEFORE_EXPIRES: int := 30000
  const DEFAULT_AUTO_REFRESH: bool := true

  /** The largest delay the timer primitive represents: 2^31 - 1 ms. */
  const MAX_INT32: int := 0x7FFF_FFFF

  /** The all-null snapshot that `resetStorage` writes. */
  const EMPTY: AuthData := AuthData(None, None, None, None)

  /** `{ ...defaultConfigValues, ...config }` together with the mode argument,
      whose default is `'cookie'`. */
  function ResolveConfig(mode: Option<Mode>, overrides: ConfigOverrides): Config {
    Config(mode.GetOr(Cookie),
           overrides.msRefreshBeforeExpires.GetOr(DEFAULT_MS_REFRESH_BEFORE_EXPIRES),
           overrides.autoRefresh.GetOr(DEFAULT_AUTO_REFRESH))
  }

  lemma DefaultConfig()
    ensures ResolveConfig(None, ConfigOverrides(None, None)) == Config(Cookie, 30000, true)
  {
  }

  /** JavaScript truthiness of an optional string: present and not empty. */
  predicate Truthy(s: Option<string>) {
    s.Some? && s.value != ""
  }

  /** JavaScript truthiness of an optional number: present and not zero. */
  predicate NonZero(n: Option<int>) {
    n.Some? && n.value != 0
  }

  /** `data.expires ?? 0` */
  function Lifetime(data: AuthData): int {
    data.expires.GetOr(0)
  }

  /** The snapshot `setCredentials` stores: the response as it came, with
      `expiresAt` derived from the clock and the lifetime. */
  function Stamp(data: AuthData, now: int): (r: AuthData)
    ensures r.expiresAt == Some(now + Lifetime(data))
    ensures r.accessToken == data.accessToken && r.refreshToken == data.refreshToken
    ensures r.expires == data.expires
  {
    data.(expiresAt := Some(now + Lifetime(data)))
  }

  /** Whatever `expiresAt` the response carried is overwritten, and stamping
      a stamped snapshot again at the same instant changes nothing. */
  lemma StampDerivesExpiry(data: AuthData, supplied: Option<int>, now: int)
    ensures Stamp(data.(expiresAt := supplied), now) == Stamp(data, now)
    ensures Stamp(Stamp(data, now), now) == Stamp(data, now)
  {
  }

  /** The delay with which `setCredentials` arms the background timer, or
      `None` when it arms none. */
  function ArmDelay(config: Config, data: AuthData): (d: Option<int>)
    ensures d.Some? <==> config.autoRefresh
                         && config.msRefreshBeforeExpires < Lifetime(data)
                         && Lifetime(data) < MAX_INT32
    ensures d.Some? ==> 0 < d.value && d.value + config.msRefreshBeforeExpires == Lifetime(data)
    ensures d.Some? && config.msRefreshBeforeExpires >= 0 ==> d.value < MAX_INT32
  {
    var expires := Lifetime(data);
    if config.autoRefresh && expires > config.msRefreshBeforeExpires && expires < MAX_INT32 then
      Some(expires - config.msRefreshBeforeExpires)
    else
      None
  }

  /** The instant at which a timer armed at `now` with `delay` becomes due.
      The timer primitive keeps its delay in a 32-bit integer, so a delay
      above 2^31 - 1 ms is not waited for: Node.js runs the timer after 1 ms,
      browsers after the delay wrapped to a signed 32-bit integer (at once
      when that is not positive). The model makes such a timer due at `now`;
      since a timer may fire at any instant once due, those runs are all
      among the model's. */
  function TimerDue(now: int, delay: int): int {
    if delay > MAX_INT32 then now else now + delay
  }

  /** A lifetime of 2^31 - 1 ms or more never arms a timer, nor does one
      no longer than the margin. */
  lemma NoTimerOutsideWindow(config: Config, data: AuthData)
    requires Lifetime(data) >= MAX_INT32 || Lifetime(data) <= config.msRefreshBeforeExpires
    ensures ArmDelay(config, data) == None
  {
  }

  /** Body of the refresh and logout requests: always the mode, and the
      stored refresh token only in `Json` mode and only when it is non-empty. */
  function SessionBodyFor(mode: Mode, stored: Option<AuthData>): (b: SessionBody)
    ensures b.mode == mode
    ensures b.refreshToken.Some? <==> mode == Json && stored.Some? && Truthy(stored.value.refreshToken)
    ensures b.refreshToken.Some? ==> b.refreshToken == stored.value.refreshToken && b.refreshToken.value != ""
  {
    if mode == Json && stored.Some? && Truthy(stored.value.refreshToken) then
      SessionBody(mode, stored.value.refreshToken)
    else
      SessionBody(mode, None)
  }

  /** In `Cookie` mode no refresh token ever leaves the client. */
  lemma CookieBodyHasNoToken(stored: Option<AuthData>)
    ensures SessionBodyFor(Cookie, stored) == SessionBody(Cookie, None)
  {
  }

  /** Body of the login request: the credentials, the one-time code when the
      options carry one, and the options' mode, falling back to the session's. */
  function LoginBodyFor(email: string, password: string, options: LoginOptions, mode: Mode): (b: LoginBody)
    ensures b.email == email && b.password == password && b.otp == options.otp
    ensures options.mode.Some? ==> b.mode == options.mode.value
    ensures options.mode.None? ==> b.mode == mode
  {
    LoginBody(email, password, options.otp, options.mode.GetOr(mode))
  }

  /** The expiry test of `refreshIfExpired` on a stored snapshot: an expiry
      is known, is not zero, and falls before `now + margin`. */
  predicate ExpiringSoon(stored: Option<AuthData>, now: int, margin: int) {
    stored.Some? && NonZero(stored.value.expiresAt) && stored.value.expiresAt.value < now + margin
  }

  /** What `getToken` reads back: `data?.access_token ?? null`. */
  function TokenOf(stored: Option<AuthData>): (t: Option<string>)
    ensures stored.None? ==> t.None?
    ensures stored.Some? ==> t == stored.value.accessToken
  {
    if stored.Some? then stored.value.accessToken else None
  }

  /** A snapshot stamped at `now` whose timer is armed with delay `d` counts
      as expiring at exactly the instants after `now + d`. When `d` fits the
      timer primitive, that is exactly after the timer is due, so the
      background timer and the on-demand expiry test agree; when `d`
      overflows it, the timer is due at `now`, while the test is still
      false there. */
  lemma TimerMatchesExpiryTest(config: Config, data: AuthData, now: int, later: int)
    requires ArmDelay(config, data).Some?
    requires now + Lifetime(data) != 0
    ensures ExpiringSoon(Some(Stamp(data, now)), later, config.msRefreshBeforeExpires)
            <==> later > now + ArmDelay(config, data).value
    ensures ArmDelay(config, data).value <= MAX_INT32 ==>
              (ExpiringSoon(Some(Stamp(data, now)), later, config.msRefreshBeforeExpires)
               <==> later > TimerDue(now, ArmDelay(config, data).value))
    ensures ArmDelay(config, data).value > MAX_INT32 ==>
              TimerDue(now, ArmDelay(config, data).value) == now
              && !ExpiringSoon(Some(Stamp(data, now)), now, config.msRefreshBeforeExpires)
  {
  }

  /** A lifetime below the margin is expiring the moment it is stored
      (unless its expiry instant happens to be zero). */
  lemma ShortLifetimeExpiresAtOnce(config: Config, data: AuthData, now: int)
    requires Lifetime(data) < config.msRefreshBeforeExpires
    requires now + Lifetime(data) != 0
    ensures ArmDelay(config, data) == None
    ensures ExpiringSoon(Some(Stamp(data, now)), now, config.msRefreshBeforeExpires)
  {
  }
}
