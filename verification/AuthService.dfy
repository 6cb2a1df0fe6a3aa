/**
 The authentication and JWT services as objects over a shared cache, against the steps of `Auth`.  What
 holds of every reachable world is an invariant of the service, so that each request can say which of
 the tokens handed out so far are usable afterwards.
 */
module AuthService {
  import opened Common
  import opened Auth
  import opened AuthTheorems

  /** The cache service, over the clock of the machine. */
  class Cache {
    var now: nat
    var store: Store

    constructor (start: nat)
      ensures now == start && store == map[]
    {
      now, store := start, map[];
    }

    method Lookup(k: Key) returns (c: Option<Content>)
      ensures c == Get(store, now, k)
    {
      if k in store && (store[k].expiresAt.None? || now < store[k].expiresAt.value) {
        return Some(store[k].content);
      }
      c := None;
    }

    method Set(k: Key, c: Content, ttl: int)
      modifies this`store
      ensures store == Put(old(store), now, k, c, ttl)
    {
      if ttl >= 0 {
        var expiresAt: Option<nat> := None;
        if ttl > 0 {
          expiresAt := Some(now + ttl);
        }
        store := store[k := Entry(c, expiresAt)];
      }
    }

    method Del(k: Key)
      modifies this`store
      ensures store == old(store) - {k}
    {
      store := store - {k};
    }
  }

  /** JwtAccessService and JwtRefreshService. */
  class JwtService {
    const kind: Kind
    const settings: Settings
    const cache: Cache

    constructor (kind: Kind, settings: Settings, cache: Cache)
      ensures this.kind == kind && this.settings == settings && this.cache == cache
    {
      this.kind, this.settings, this.cache := kind, settings, cache;
    }

    method GenerateToken(user: UserId, role: nat) returns (t: Token)
      ensures t == Sign(settings, kind, user, role, cache.now)
    {
      var iat := cache.now / 1000;
      var ttl := if kind == Access then settings.accessTtl else settings.refreshTtl;
      t := Token(kind, user, role, iat, iat + ttl);
    }

    method RevokeToken(t: Token)
      modifies cache`store
      ensures cache.store == Auth.RevokeToken(old(cache.store), cache.now, t)
      ensures forall later :: cache.now <= later ==> !Auth.VerifyToken(cache.store, later, t)
    {
      var currentTime := cache.now / 1000;
      var tokenValidTime := (t.exp - currentTime) * 1000;
      cache.Set(Revoked(t), Mark, tokenValidTime);
      forall later | cache.now <= later ensures !Auth.VerifyToken(cache.store, later, t) {
        RevocationLasts(old(cache.store), cache.now, t, later);
      }
    }

    method IsRevoked(t: Token) returns (revoked: bool)
      ensures revoked == Auth.IsRevoked(cache.store, cache.now, t)
    {
      var revokedToken := cache.Lookup(Revoked(t));
      revoked := revokedToken.Some?;
    }

    method VerifyToken(t: Token) returns (valid: bool)
      ensures valid == Auth.VerifyToken(cache.store, cache.now, t)
    {
      var revoked := IsRevoked(t);
      if revoked {
        return false;
      }
      valid := cache.now / 1000 < t.exp;
    }
  }

  class AuthService {
    const settings: Settings
    const cache: Cache
    const jwtAccessService: JwtService
    const jwtRefreshService: JwtService
    var passwords: map<UserId, string>
    ghost var issued: set<Token>
    ghost var history: seq<HistoryEntry>

    constructor (settings: Settings, cache: Cache)
      requires settings.accessTtl > 0 && cache.store == map[]
      ensures Valid() && this.settings == settings && this.cache == cache
      ensures State() == Boot(cache.now)
      ensures fresh(jwtAccessService) && fresh(jwtRefreshService)
    {
      this.settings, this.cache := settings, cache;
      passwords, issued, history := map[], {}, [];
      jwtAccessService := new JwtService(Access, settings, cache);
      jwtRefreshService := new JwtService(Refresh, settings, cache);
    }

    ghost predicate Wired() {
      && jwtAccessService.kind == Access && jwtAccessService.settings == settings && jwtAccessService.cache == cache
      && jwtRefreshService.kind == Refresh && jwtRefreshService.settings == settings
      && jwtRefreshService.cache == cache
    }

    ghost predicate Valid()
      reads this, cache
    {
      Wired() && settings.accessTtl > 0 && WorldOk(settings, State())
    }

    ghost function State(): World
      reads this, cache
    {
      World(cache.now, cache.store, issued, history, passwords)
    }

    /** The access token handed out to a user that verifyToken accepts, if any, is t. */
    ghost predicate OnlyLive(user: UserId, t: Token)
      reads this, cache
    {
      forall u :: u in issued && u.user == user && Auth.VerifyToken(cache.store, cache.now, u) ==> u == t
    }

    lemma CachedIsOnlyLive(user: UserId, t: Token)
      requires Valid()
      requires CachedPair(cache.store, cache.now, user).Some? ==>
                 CachedPair(cache.store, cache.now, user).value.accessToken == t
      ensures OnlyLive(user, t)
    {
      forall u | u in issued && u.user == user && Auth.VerifyToken(cache.store, cache.now, u) ensures u == t {
        LiveIsCached(State(), u);
      }
    }

    /** Time passes between requests. */
    method Wait(ms: nat)
      requires Valid()
      modifies cache`now
      ensures Valid() && State() == Step(settings, old(State()), Tick(ms))
    {
      StepKeepsOk(settings, State(), Tick(ms));
      cache.now := cache.now + ms;
    }

    method GetCachedTokenPair(user: UserId) returns (p: Option<TokenPair>)
      ensures p == CachedPair(cache.store, cache.now, user)
    {
      var c := cache.Lookup(PairOf(user));
      p := match c case Some(Pair(pair)) => Some(pair) case _ => None;
    }

    method GenerateTokenPair(user: UserId, role: nat) returns (p: TokenPair)
      requires Wired()
      ensures p == NewPair(settings, user, role, cache.now)
    {
      var accessToken := jwtAccessService.GenerateToken(user, role);
      var refreshToken := jwtRefreshService.GenerateToken(user, role);
      p := TokenPair(accessToken, refreshToken);
    }

    method CacheTokenPair(user: UserId, p: TokenPair)
      modifies cache`store
      ensures cache.store == CachePair(old(cache.store), cache.now, user, p)
    {
      var currentTime := cache.now / 1000;
      var tokenValidTime := (p.accessToken.exp - currentTime) * 1000;
      cache.Set(PairOf(user), Pair(p), tokenValidTime);
    }

    method RevokeTokenPair(user: UserId)
      requires Wired()
      modifies cache`store
      ensures cache.store == RevokePair(old(cache.store), cache.now, user)
    {
      var cached := GetCachedTokenPair(user);
      if cached.None? {
        return;
      }
      jwtAccessService.RevokeToken(cached.value.accessToken);
      jwtRefreshService.RevokeToken(cached.value.refreshToken);
    }

    /** The access token it returns is the only one of the user that can be usable. */
    method SignIn(user: UserId, role: nat) returns (p: TokenPair)
      requires Valid()
      modifies this, cache`store
      ensures Valid() && (State(), p) == SignInStep(settings, old(State()), user, role)
      ensures p.accessToken.user == user && cache.now < 1000 * p.accessToken.exp + 1000
      ensures OnlyLive(user, p.accessToken)
    {
      ghost var w := State();
      StepKeepsOk(settings, w, Auth.SignIn(user, role));
      SignInBound(settings, w, user, role);
      var cached := GetCachedTokenPair(user);
      if cached.Some? {
        p := cached.value;
      } else {
        p := GenerateTokenPair(user, role);
        CacheTokenPair(user, p);
        issued := issued + {p.accessToken};
      }
      assert State() == SignInStep(settings, w, user, role).0;
      CachedIsOnlyLive(user, p.accessToken);
    }

    /** No access token the user was ever given is usable afterwards. */
    method SignOut(user: UserId)
      requires Valid()
      modifies cache`store
      ensures Valid() && State() == SignOutStep(old(State()), user)
      ensures forall t :: t in issued && t.user == user ==> !Auth.VerifyToken(cache.store, cache.now, t)
    {
      ghost var w := State();
      StepKeepsOk(settings, w, Auth.SignOut(user));
      RevokeTokenPair(user);
      forall t | t in issued && t.user == user ensures !Auth.VerifyToken(cache.store, cache.now, t) {
        SignOutEndsAll(w, user, t);
      }
    }

    /** Only the new access token can be usable afterwards. */
    method RefreshToken(token: Option<Token>) returns (r: Result<TokenPair, Error>)
      requires Valid()
      modifies this, cache`store
      ensures Valid() && (State(), r) == RefreshStep(settings, old(State()), token)
      ensures r.Ok? <==> token.Some?
      ensures r.Ok? ==> OnlyLive(token.value.user, r.value.accessToken)
    {
      ghost var w := State();
      StepKeepsOk(settings, w, RefreshTokens(token));
      if token.None? {
        return Err(UNAUTHORIZED);
      }
      RevokeTokenPair(token.value.user);
      var p := GenerateTokenPair(token.value.user, token.value.role);
      CacheTokenPair(token.value.user, p);
      issued := issued + {p.accessToken};
      r := Ok(p);
      assert (State(), r) == RefreshStep(settings, w, token);
      CachedIsOnlyLive(token.value.user, p.accessToken);
    }

    /** The code is stored before the mail is sent, and stays stored if sending fails. */
    method ForgotPassword(found: Option<UserId>, otpCode: string, ipAddress: string) returns (error: Option<Error>)
      requires Valid()
      modifies this, cache`store
      ensures Valid() && (State(), error) == ForgotStep(old(State()), found, otpCode, ipAddress)
      ensures error.None? <==> found.Some?
      ensures error.None? ==>
                CachedReset(cache.store, cache.now, found.value) == Some(ResetTransaction(otpCode, ipAddress))
    {
      StepKeepsOk(settings, State(), Auth.ForgotPassword(found, otpCode, ipAddress));
      if found.None? {
        return Some(CUSTOMER_NOT_FOUND);
      }
      cache.Set(ResetOf(found.value), Reset(ResetTransaction(otpCode, ipAddress)), OTP_TTL);
      history := history + [Forgot(found.value, otpCode, ipAddress, cache.now)];
      error := None;
    }

    /** A reset that goes through used the user's latest request, in time, and the code is gone. */
    method ResetPassword(user: UserId, otpCode: string, ipAddress: string, password: string, updateOk: bool)
      returns (error: Option<Error>)
      requires Valid()
      modifies this, cache`store
      ensures Valid() && (State(), error) == ResetStep(old(State()), user, otpCode, ipAddress, password, updateOk)
      ensures error.None? ==>
                && history == old(history) + [Done(user, otpCode, ipAddress, cache.now)]
                && (exists i :: Uses(history, |old(history)|, i))
                && CachedReset(cache.store, cache.now, user).None?
    {
      StepKeepsOk(settings, State(), Auth.ResetPassword(user, otpCode, ipAddress, password, updateOk));
      var c := cache.Lookup(ResetOf(user));
      var cached := match c case Some(Reset(t)) => Some(t) case _ => None;
      if cached.None? {
        return Some(INVALID_RESET_PASSWORD_SESSION);
      }
      if otpCode != cached.value.otpCode || ipAddress != cached.value.ipAddress {
        return Some(INVALID_OTP);
      }
      if !updateOk {
        return Some(UPDATE_FAILED);
      }
      passwords := passwords[user := password];
      history := history + [Done(user, otpCode, ipAddress, cache.now)];
      cache.Del(ResetOf(user));
      error := None;
      assert State().history[|old(history)|].Done?;
    }
  }
}
