/**
 Tokens and one-time passwords over a clock: the cache as a store with times to live, the JWT services
 that revoke and verify tokens, and the requests of the authentication service.  Time is in
 milliseconds; `iat` and `exp` are whole seconds (section 4.1.4 of RFC 7519).
 */
module Auth {
  import opened Common

  type UserId = nat
  datatype Kind = Access | Refresh

  /** A signed token, by its claims: equal claims sign to the same token. */
  datatype Token = Token(kind: Kind, user: UserId, role: nat, iat: nat, exp: nat)

  datatype TokenPair = TokenPair(accessToken: Token, refreshToken: Token)

  datatype ResetTransaction = ResetTransaction(otpCode: string, ipAddress: string)

  const OTP_TTL: nat := 15 * 60 * 1000

  /** Lifetimes of the two kinds of tokens, in seconds. */
  datatype Settings = Settings(accessTtl: nat, refreshTtl: nat)

  // ---------- the store ----------

  /** The cache keys in use, one constructor per prefix. */
  datatype Key = PairOf(user: UserId) | Revoked(token: Token) | ResetOf(user: UserId)

  datatype Content = Pair(pair: TokenPair) | Mark | Reset(transaction: ResetTransaction)

  /** Never, or the first millisecond at which the entry is gone. */
  datatype Entry = Entry(content: Content, expiresAt: Option<nat>)

  type Store = map<Key, Entry>

  function Get(store: Store, now: nat, k: Key): Option<Content> {
    if k in store && (store[k].expiresAt.None? || now < store[k].expiresAt.value) then Some(store[k].content) else None
  }

  /** A time to live of 0 means none at all; a negative one is refused by the store. */
  function Put(store: Store, now: nat, k: Key, c: Content, ttl: int): Store {
    if ttl < 0 then store
    else store[k := Entry(c, if ttl == 0 then None else Some(now + ttl))]
  }

  // ---------- tokens ----------

  function Seconds(now: nat): nat { now / 1000 }

  function Sign(s: Settings, kind: Kind, user: UserId, role: nat, now: nat): Token {
    Token(kind, user, role, Seconds(now), Seconds(now) + if kind == Access then s.accessTtl else s.refreshTtl)
  }

  /** How long the token is still valid, in milliseconds, counted from the current second. */
  function ValidTime(t: Token, now: nat): int { (t.exp - Seconds(now)) * 1000 }

  /** jwt.verify: the current second is before `exp`. */
  predicate Unexpired(t: Token, now: nat) { Seconds(now) < t.exp }

  predicate IsRevoked(store: Store, now: nat, t: Token) { Get(store, now, Revoked(t)).Some? }

  predicate VerifyToken(store: Store, now: nat, t: Token) { !IsRevoked(store, now, t) && Unexpired(t, now) }

  function RevokeToken(store: Store, now: nat, t: Token): Store { Put(store, now, Revoked(t), Mark, ValidTime(t, now)) }

  function CachedPair(store: Store, now: nat, user: UserId): Option<TokenPair> {
    match Get(store, now, PairOf(user))
    case Some(Pair(p)) => Some(p)
    case _ => None
  }

  function CachePair(store: Store, now: nat, user: UserId, p: TokenPair): Store {
    Put(store, now, PairOf(user), Pair(p), ValidTime(p.accessToken, now))
  }

  /** Both tokens of the cached pair are revoked; the pair itself stays cached. */
  function RevokePair(store: Store, now: nat, user: UserId): Store {
    match CachedPair(store, now, user)
    case None => store
    case Some(p) => RevokeToken(RevokeToken(store, now, p.accessToken), now, p.refreshToken)
  }

  function NewPair(s: Settings, user: UserId, role: nat, now: nat): TokenPair {
    TokenPair(Sign(s, Access, user, role, now), Sign(s, Refresh, user, role, now))
  }

  function CachedReset(store: Store, now: nat, user: UserId): Option<ResetTransaction> {
    match Get(store, now, ResetOf(user))
    case Some(Reset(t)) => Some(t)
    case _ => None
  }

  // ---------- requests ----------

  /** What has happened to passwords: codes sent out, and resets that went through. */
  datatype HistoryEntry = Forgot(user: UserId, otpCode: string, ipAddress: string, time: nat)
                  | Done(user: UserId, otpCode: string, ipAddress: string, time: nat)

  /** The clock, the cache, every access token handed out so far, and the history of resets. */
  datatype World = World(now: nat, store: Store, issued: set<Token>, history: seq<HistoryEntry>,
                         passwords: map<UserId, string>)

  datatype Error = INVALID_RESET_PASSWORD_SESSION | INVALID_OTP | UNAUTHORIZED | UPDATE_FAILED | CUSTOMER_NOT_FOUND

  function SignInStep(s: Settings, w: World, user: UserId, role: nat): (World, TokenPair) {
    match CachedPair(w.store, w.now, user)
    case Some(p) => (w, p)
    case None =>
      var p := NewPair(s, user, role, w.now);
      (w.(store := CachePair(w.store, w.now, user, p), issued := w.issued + {p.accessToken}), p)
  }

  /** The refresh token may be any text that decodes, or one that does not. */
  function RefreshStep(s: Settings, w: World, token: Option<Token>): (World, Result<TokenPair, Error>) {
    match token
    case None => (w, Err(UNAUTHORIZED))
    case Some(t) =>
      var p := NewPair(s, t.user, t.role, w.now);
      (w.(store := CachePair(RevokePair(w.store, w.now, t.user), w.now, t.user, p),
          issued := w.issued + {p.accessToken}), Ok(p))
  }

  function SignOutStep(w: World, user: UserId): World { w.(store := RevokePair(w.store, w.now, user)) }

  /** The user is whom the address or phone number of the payload belongs to, if anyone. */
  function ForgotStep(w: World, found: Option<UserId>, otpCode: string, ipAddress: string): (World, Option<Error>) {
    match found
    case None => (w, Some(CUSTOMER_NOT_FOUND))
    case Some(user) =>
      (w.(store := Put(w.store, w.now, ResetOf(user), Reset(ResetTransaction(otpCode, ipAddress)), OTP_TTL),
          history := w.history + [Forgot(user, otpCode, ipAddress, w.now)]), None)
  }

  function ResetStep(w: World, user: UserId, otpCode: string, ipAddress: string, password: string, updateOk: bool)
    : (World, Option<Error>)
  {
    match CachedReset(w.store, w.now, user)
    case None => (w, Some(INVALID_RESET_PASSWORD_SESSION))
    case Some(t) =>
      if otpCode != t.otpCode || ipAddress != t.ipAddress then (w, Some(INVALID_OTP))
      else if !updateOk then (w, Some(UPDATE_FAILED))
      else (w.(store := w.store - {ResetOf(user)}, history := w.history + [Done(user, otpCode, ipAddress, w.now)],
               passwords := w.passwords[user := password]), None)
  }

  datatype Event =
    | Tick(ms: nat)
    | SignIn(user: UserId, role: nat)
    | RefreshTokens(token: Option<Token>)
    | SignOut(user: UserId)
    | ForgotPassword(found: Option<UserId>, otpCode: string, ipAddress: string)
    | ResetPassword(user: UserId, otpCode: string, ipAddress: string, password: string, updateOk: bool)

  function Step(s: Settings, w: World, e: Event): World {
    match e
    case Tick(ms) => w.(now := w.now + ms)
    case SignIn(user, role) => SignInStep(s, w, user, role).0
    case RefreshTokens(token) => RefreshStep(s, w, token).0
    case SignOut(user) => SignOutStep(w, user)
    case ForgotPassword(found, otp, ip) => ForgotStep(w, found, otp, ip).0
    case ResetPassword(user, otp, ip, password, ok) => ResetStep(w, user, otp, ip, password, ok).0
  }

  function Boot(start: nat): World { World(start, map[], {}, [], map[]) }

  function Run(s: Settings, w: World, events: seq<Event>): World {
    if events == [] then w else Step(s, Run(s, w, events[..|events| - 1]), events[|events| - 1])
  }
}
