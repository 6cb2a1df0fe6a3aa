/** Lifetimes of tokens, revocations and one-time passwords over all runs. */
module AuthTheorems {
  import opened Common
  import opened Auth

  // ---------- revocation ----------

  lemma SecondsAre(now: nat, exp: nat)
    ensures Seconds(now) < exp <==> now < 1000 * exp
    ensures now + (exp - Seconds(now)) * 1000 == 1000 * exp + now % 1000
  {
    assert now == 1000 * (now / 1000) + now % 1000;
  }

  /**
   Revocation is permanent and tight: from the moment revokeToken runs, verifyToken refuses the token at
   every later time, and the record it leaves for an unexpired token ends less than a second after `exp`.
   */
  lemma RevocationLasts(store: Store, now: nat, t: Token, later: nat)
    requires now <= later
    ensures var after := RevokeToken(store, now, t);
            && !VerifyToken(after, later, t)
            && (Unexpired(t, now) ==>
                  && Revoked(t) in after && after[Revoked(t)].expiresAt.Some?
                  && 1000 * t.exp <= after[Revoked(t)].expiresAt.value < 1000 * t.exp + 1000)
  {
    SecondsAre(now, t.exp);
    SecondsAre(later, t.exp);
  }

  /** What a later request keeps of a revocation. */
  ghost predicate Refused(store: Store, t: Token) {
    Revoked(t) in store && (store[Revoked(t)].expiresAt.Some? ==> store[Revoked(t)].expiresAt.value >= 1000 * t.exp)
  }

  lemma RefusedNow(store: Store, now: nat, t: Token)
    requires Refused(store, t)
    ensures !VerifyToken(store, now, t)
  {
    SecondsAre(now, t.exp);
  }

  lemma RevokeKeepsRefused(store: Store, now: nat, t: Token, u: Token)
    requires Refused(store, u)
    ensures Refused(RevokeToken(store, now, t), u)
  {
    SecondsAre(now, t.exp);
  }

  lemma StepKeepsRefused(s: Settings, w: World, e: Event, t: Token)
    requires Refused(w.store, t)
    ensures Refused(Step(s, w, e).store, t)
  {
    match e
    case SignOut(user) => RevokePairKeepsRefused(w.store, w.now, user, t);
    case RefreshTokens(Some(token)) => RevokePairKeepsRefused(w.store, w.now, token.user, t);
    case _ =>
  }

  lemma RevokePairKeepsRefused(store: Store, now: nat, user: UserId, t: Token)
    requires Refused(store, t)
    ensures Refused(RevokePair(store, now, user), t)
  {
    var cached := CachedPair(store, now, user);
    if cached.Some? {
      RevokeKeepsRefused(store, now, cached.value.accessToken, t);
      RevokeKeepsRefused(RevokeToken(store, now, cached.value.accessToken), now, cached.value.refreshToken, t);
    }
  }

  // ---------- one live token per user ----------

  /** The token is expired, refused, or the one in the cached pair of its user. */
  ghost predicate Accounted(w: World, t: Token) {
    || !Unexpired(t, w.now)
    || Refused(w.store, t)
    || (CachedPair(w.store, w.now, t.user).Some? && CachedPair(w.store, w.now, t.user).value.accessToken == t)
  }

  /** A cached pair belongs to its user and is kept until its access token expires, and less than a second longer. */
  ghost predicate PairsTimely(store: Store) {
    forall user :: PairOf(user) in store ==>
      && store[PairOf(user)].content.Pair?
      && store[PairOf(user)].content.pair.accessToken.user == user
      && store[PairOf(user)].expiresAt.Some?
      && 1000 * store[PairOf(user)].content.pair.accessToken.exp
         <= store[PairOf(user)].expiresAt.value
         < 1000 * store[PairOf(user)].content.pair.accessToken.exp + 1000
  }

  ghost predicate TokensOk(w: World) {
    && PairsTimely(w.store)
    && forall t :: t in w.issued ==> t.kind == Access && Accounted(w, t)
  }

  lemma TickKeepsAccount(w: World, ms: nat, t: Token)
    requires PairsTimely(w.store) && Accounted(w, t)
    ensures Accounted(w.(now := w.now + ms), t)
  {
    SecondsAre(w.now, t.exp);
    SecondsAre(w.now + ms, t.exp);
  }

  lemma RevokePairKeepsPairs(store: Store, now: nat, user: UserId)
    ensures forall u :: PairOf(u) in RevokePair(store, now, user) <==> PairOf(u) in store
    ensures forall u :: PairOf(u) in store ==> RevokePair(store, now, user)[PairOf(u)] == store[PairOf(u)]
  {
  }

  /** Once the cached pair is revoked, its access token is refused or expired. */
  lemma RevokePairRefuses(store: Store, now: nat, user: UserId)
    requires CachedPair(store, now, user).Some?
    ensures var t := CachedPair(store, now, user).value.accessToken;
            !Unexpired(t, now) || Refused(RevokePair(store, now, user), t)
  {
    var p := CachedPair(store, now, user).value;
    var t := p.accessToken;
    SecondsAre(now, t.exp);
    if Unexpired(t, now) {
      assert Refused(RevokeToken(store, now, t), t);
      RevokeKeepsRefused(RevokeToken(store, now, t), now, p.refreshToken, t);
    }
  }

  /** Caching a fresh pair, when the pair it replaces is gone, revoked or expired. */
  lemma CacheKeepsTokens(s: Settings, w: World, store: Store, user: UserId, role: nat)
    requires s.accessTtl > 0 && PairsTimely(store)
    requires forall t :: t in w.issued ==> t.kind == Access
    requires forall t :: t in w.issued ==>
               !Unexpired(t, w.now) || Refused(store, t)
               || (t.user != user && CachedPair(store, w.now, t.user).Some?
                   && CachedPair(store, w.now, t.user).value.accessToken == t)
    ensures var p := NewPair(s, user, role, w.now);
            TokensOk(w.(store := CachePair(store, w.now, user, p), issued := w.issued + {p.accessToken}))
  {
    var p := NewPair(s, user, role, w.now);
    SecondsAre(w.now, p.accessToken.exp);
    assert ValidTime(p.accessToken, w.now) == s.accessTtl * 1000;
    var w' := w.(store := CachePair(store, w.now, user, p), issued := w.issued + {p.accessToken});
    forall t | t in w'.issued ensures t.kind == Access && Accounted(w', t) {
      if t != p.accessToken && t.user != user {
        assert Get(w'.store, w.now, PairOf(t.user)) == Get(store, w.now, PairOf(t.user));
      }
    }
  }

  lemma SignInKeepsTokens(s: Settings, w: World, user: UserId, role: nat)
    requires s.accessTtl > 0 && TokensOk(w)
    ensures TokensOk(SignInStep(s, w, user, role).0)
  {
    if CachedPair(w.store, w.now, user).None? {
      CacheKeepsTokens(s, w, w.store, user, role);
    }
  }

  lemma RevokeKeepsTokens(w: World, user: UserId)
    requires TokensOk(w)
    ensures TokensOk(w.(store := RevokePair(w.store, w.now, user)))
  {
    var store := RevokePair(w.store, w.now, user);
    RevokePairKeepsPairs(w.store, w.now, user);
    forall t | t in w.issued ensures t.kind == Access && Accounted(w.(store := store), t) {
      assert Accounted(w, t);
      if Refused(w.store, t) { RevokePairKeepsRefused(w.store, w.now, user, t); }
    }
  }

  lemma RefreshKeepsTokens(s: Settings, w: World, token: Token)
    requires s.accessTtl > 0 && TokensOk(w)
    ensures TokensOk(RefreshStep(s, w, Some(token)).0)
  {
    var user, store := token.user, RevokePair(w.store, w.now, token.user);
    RevokePairKeepsPairs(w.store, w.now, user);
    forall t | t in w.issued
      ensures !Unexpired(t, w.now) || Refused(store, t)
              || (t.user != user && CachedPair(store, w.now, t.user).Some?
                  && CachedPair(store, w.now, t.user).value.accessToken == t)
    {
      assert Accounted(w, t);
      if Refused(w.store, t) { RevokePairKeepsRefused(w.store, w.now, user, t); }
      else if Unexpired(t, w.now) && t.user == user { RevokePairRefuses(w.store, w.now, user); }
    }
    CacheKeepsTokens(s, w, store, user, token.role);
  }

  lemma StepKeepsTokens(s: Settings, w: World, e: Event)
    requires s.accessTtl > 0 && TokensOk(w)
    ensures TokensOk(Step(s, w, e))
  {
    match e
    case Tick(ms) =>
      forall t | t in w.issued ensures Accounted(w.(now := w.now + ms), t) { TickKeepsAccount(w, ms, t); }
    case SignIn(user, role) => SignInKeepsTokens(s, w, user, role);
    case RefreshTokens(Some(token)) => RefreshKeepsTokens(s, w, token);
    case RefreshTokens(None) =>
    case SignOut(user) => RevokeKeepsTokens(w, user);
    case ForgotPassword(None, otp, ip) =>
    case ForgotPassword(Some(user), otp, ip) => ResetEntryKeepsTokens(w, Step(s, w, e), user);
    case ResetPassword(user, otp, ip, password, ok) => ResetEntryKeepsTokens(w, Step(s, w, e), user);
  }

  /** Requests about passwords touch the entry of the reset only. */
  lemma ResetEntryKeepsTokens(w: World, w': World, user: UserId)
    requires TokensOk(w) && w'.now == w.now && w'.issued == w.issued
    requires forall k :: k != ResetOf(user) ==>
               (k in w'.store <==> k in w.store) && (k in w.store ==> w'.store[k] == w.store[k])
    ensures TokensOk(w')
  {
    forall t | t in w'.issued ensures t.kind == Access && Accounted(w', t) {
      assert Accounted(w, t);
      assert Get(w'.store, w.now, PairOf(t.user)) == Get(w.store, w.now, PairOf(t.user));
    }
  }

  /** An access token that passes is the cached one. */
  lemma LiveIsCached(w: World, t: Token)
    requires TokensOk(w) && t in w.issued && VerifyToken(w.store, w.now, t)
    ensures CachedPair(w.store, w.now, t.user).Some? && CachedPair(w.store, w.now, t.user).value.accessToken == t
  {
    assert Accounted(w, t);
    if Refused(w.store, t) { RefusedNow(w.store, w.now, t); }
  }

  /** Signing out leaves the user without a usable access token. */
  lemma SignOutEndsAll(w: World, user: UserId, t: Token)
    requires TokensOk(w) && t in w.issued && t.user == user
    ensures !VerifyToken(RevokePair(w.store, w.now, user), w.now, t)
  {
    var store := RevokePair(w.store, w.now, user);
    if VerifyToken(store, w.now, t) {
      RevokeKeepsTokens(w, user);
      LiveIsCached(w.(store := store), t);
      RevokePairKeepsPairs(w.store, w.now, user);
      assert CachedPair(store, w.now, user) == CachedPair(w.store, w.now, user);
      RevokePairRefuses(w.store, w.now, user);
      RefusedNow(store, w.now, t);
    }
  }

  /** The pair sign-in hands out, in any world that keeps the invariants. */
  lemma SignInBound(s: Settings, w: World, user: UserId, role: nat)
    requires s.accessTtl > 0 && TokensOk(w)
    ensures var (w', p) := SignInStep(s, w, user, role);
            && p.accessToken.user == user && w.now < 1000 * p.accessToken.exp + 1000
            && CachedPair(w'.store, w'.now, user) == Some(p)
  {
    SecondsAre(w.now, Sign(s, Access, user, role, w.now).exp);
    assert ValidTime(Sign(s, Access, user, role, w.now), w.now) == 1000 * s.accessTtl;
  }

  /**
   At every time of every run, every access token handed out is expired, refused for good, or the cached
   one of its user; so no two different access tokens of a user pass verifyToken.
   */
  lemma OneLiveTokenPerUser(s: Settings, start: nat, events: seq<Event>, t: Token, u: Token)
    requires s.accessTtl > 0
    requires var w := Run(s, Boot(start), events);
             && t in w.issued && u in w.issued && t.user == u.user
             && VerifyToken(w.store, w.now, t) && VerifyToken(w.store, w.now, u)
    ensures t == u
    ensures var w := Run(s, Boot(start), events);
            CachedPair(w.store, w.now, t.user).Some? && CachedPair(w.store, w.now, t.user).value.accessToken == t
  {
    RunOk(s, start, events);
    LiveIsCached(Run(s, Boot(start), events), t);
    LiveIsCached(Run(s, Boot(start), events), u);
  }

  /** A pair that sign-in hands out has an access token that expired less than a second ago, if at all. */
  lemma SignInServesTimely(s: Settings, start: nat, events: seq<Event>, user: UserId, role: nat)
    requires s.accessTtl > 0
    ensures var w := Run(s, Boot(start), events);
            var (w', p) := SignInStep(s, w, user, role);
            p.accessToken.user == user && w.now < 1000 * p.accessToken.exp + 1000
  {
    RunOk(s, start, events);
    SignInBound(s, Run(s, Boot(start), events), user, role);
  }

  // ---------- signing out and refreshing ----------

  /** Cached pairs hold one token of each kind, and their access tokens end no later than one issued now. */
  ghost predicate PairsOrderly(s: Settings, store: Store, now: nat) {
    forall user :: PairOf(user) in store ==>
      && store[PairOf(user)].content.Pair?
      && store[PairOf(user)].content.pair.accessToken.kind == Access
      && store[PairOf(user)].content.pair.refreshToken.kind == Refresh
      && store[PairOf(user)].content.pair.accessToken.exp <= Seconds(now) + s.accessTtl
  }

  /** An access token is only revoked while its user has a pair cached that ends no earlier. */
  ghost predicate RevokedCovered(store: Store) {
    forall t: Token :: t.kind == Access && Revoked(t) in store ==>
      && PairOf(t.user) in store && store[PairOf(t.user)].content.Pair?
      && t.exp <= store[PairOf(t.user)].content.pair.accessToken.exp
  }

  ghost predicate PairsOk(s: Settings, w: World) {
    PairsTimely(w.store) && PairsOrderly(s, w.store, w.now) && RevokedCovered(w.store)
  }

  lemma RevokePairKeepsPairsOk(s: Settings, w: World, user: UserId)
    requires PairsOk(s, w)
    ensures PairsOk(s, w.(store := RevokePair(w.store, w.now, user)))
  {
    RevokePairKeepsPairs(w.store, w.now, user);
  }

  lemma CacheKeepsPairsOk(s: Settings, w: World, user: UserId, role: nat, issued: set<Token>)
    requires s.accessTtl > 0 && PairsOk(s, w)
    ensures PairsOk(s, w.(store := CachePair(w.store, w.now, user, NewPair(s, user, role, w.now)), issued := issued))
  {
    var p := NewPair(s, user, role, w.now);
    SecondsAre(w.now, p.accessToken.exp);
    assert ValidTime(p.accessToken, w.now) == s.accessTtl * 1000;
  }

  lemma StepKeepsPairsOk(s: Settings, w: World, e: Event)
    requires s.accessTtl > 0 && PairsOk(s, w)
    ensures PairsOk(s, Step(s, w, e))
  {
    match e
    case Tick(ms) => assert Seconds(w.now) <= Seconds(w.now + ms);
    case SignIn(user, role) =>
      CacheKeepsPairsOk(s, w, user, role, w.issued + {NewPair(s, user, role, w.now).accessToken});
    case RefreshTokens(Some(t)) =>
      RevokePairKeepsPairsOk(s, w, t.user);
      CacheKeepsPairsOk(s, w.(store := RevokePair(w.store, w.now, t.user)), t.user, t.role,
                        w.issued + {NewPair(s, t.user, t.role, w.now).accessToken});
    case SignOut(user) => RevokePairKeepsPairsOk(s, w, user);
    case _ =>
  }

  /** Revoking a pair leaves an access token on record exactly if it was before or is the pair's and not expired. */
  lemma RevokePairMarks(store: Store, now: nat, user: UserId, t: Token)
    requires t.kind == Access
    requires CachedPair(store, now, user).Some? ==> CachedPair(store, now, user).value.refreshToken.kind == Refresh
    requires Unexpired(t, now)
    ensures IsRevoked(RevokePair(store, now, user), now, t) <==>
              IsRevoked(store, now, t)
              || (CachedPair(store, now, user).Some? && CachedPair(store, now, user).value.accessToken == t)
  {
    SecondsAre(now, t.exp);
  }

  /**
   Sign-out refuses the cached pair but leaves it cached, so the sign-in after it hands out a usable access
   token exactly when there was no pair to sign out of.
   */
  lemma SignInAfterSignOut(s: Settings, start: nat, events: seq<Event>, user: UserId, role: nat)
    requires s.accessTtl > 0
    ensures var w := Run(s, Boot(start), events);
            var (w', p) := SignInStep(s, SignOutStep(w, user), user, role);
            VerifyToken(w'.store, w'.now, p.accessToken) <==> CachedPair(w.store, w.now, user).None?
  {
    RunOk(s, start, events);
    var w := Run(s, Boot(start), events);
    var (w', p) := SignInStep(s, SignOutStep(w, user), user, role);
    var t := p.accessToken;
    SecondsAre(w.now, t.exp);
    if CachedPair(w.store, w.now, user).None? {
      assert t == Sign(s, Access, user, role, w.now);
      assert Revoked(t) !in w.store;
    } else {
      RevokePairKeepsPairs(w.store, w.now, user);
      RevokePairRefuses(w.store, w.now, user);
      assert CachedPair(RevokePair(w.store, w.now, user), w.now, user) == CachedPair(w.store, w.now, user);
      if Refused(w'.store, t) { RefusedNow(w'.store, w.now, t); }
    }
  }

  /**
   Refreshing revokes the cached pair first.  Tokens with equal claims are equal, so the new access token is
   usable exactly when it is neither revoked already nor the cached one; it is in any later second than that
   of the cached one.
   */
  lemma RefreshedTokenLives(s: Settings, start: nat, events: seq<Event>, token: Token)
    requires s.accessTtl > 0
    ensures var w := Run(s, Boot(start), events);
            var (w', r) := RefreshStep(s, w, Some(token));
            && r.Ok?
            && var t := r.value.accessToken;
            && t.user == token.user && t in w'.issued
            && (VerifyToken(w'.store, w'.now, t) <==>
                  && !IsRevoked(w.store, w.now, t)
                  && (CachedPair(w.store, w.now, t.user).Some? ==>
                        CachedPair(w.store, w.now, t.user).value.accessToken != t))
            && ((CachedPair(w.store, w.now, t.user).Some? ==>
                   CachedPair(w.store, w.now, t.user).value.accessToken.exp < t.exp) ==>
                  VerifyToken(w'.store, w'.now, t))
  {
    RunOk(s, start, events);
    var w := Run(s, Boot(start), events);
    var t := Sign(s, Access, token.user, token.role, w.now);
    RevokePairMarks(w.store, w.now, token.user, t);
    var revoked := RevokePair(w.store, w.now, token.user);
    var p := NewPair(s, token.user, token.role, w.now);
    assert Get(CachePair(revoked, w.now, token.user, p), w.now, Revoked(t)) == Get(revoked, w.now, Revoked(t));
  }

  lemma SignedIn(s: Settings, start: nat, user: UserId, role: nat)
    requires s.accessTtl > 0
    ensures var w := Run(s, Boot(start), [SignIn(user, role)]);
            w.now == start && CachedPair(w.store, start, user) == Some(NewPair(s, user, role, start))
  {
    var e := SignIn(user, role);
    assert [e][..0] == [];
    assert Run(s, Boot(start), [e]) == SignInStep(s, Boot(start), user, role).0;
    SignInBound(s, Boot(start), user, role);
    assert CachedPair(Boot(start).store, start, user).None?;
  }

  /** Whoever signs in, out and in again is given an access token that is refused. */
  lemma SignedOutForGood(s: Settings, start: nat, user: UserId, role: nat)
    requires s.accessTtl > 0
    ensures var w := Run(s, Boot(start), [SignIn(user, role)]);
            var (w', p) := SignInStep(s, SignOutStep(w, user), user, role);
            !VerifyToken(w'.store, w'.now, p.accessToken)
  {
    SignedIn(s, start, user, role);
    SignInAfterSignOut(s, start, [SignIn(user, role)], user, role);
  }

  /** Whoever signs in and refreshes within the same second is given an access token that is refused. */
  lemma RefreshedTooSoon(s: Settings, start: nat, user: UserId, role: nat)
    requires s.accessTtl > 0
    ensures var w := Run(s, Boot(start), [SignIn(user, role)]);
            var (w', r) := RefreshStep(s, w, Some(NewPair(s, user, role, start).refreshToken));
            r.Ok? && !VerifyToken(w'.store, w'.now, r.value.accessToken)
  {
    SignedIn(s, start, user, role);
    RefreshedTokenLives(s, start, [SignIn(user, role)], NewPair(s, user, role, start).refreshToken);
  }

  // ---------- revocation through later requests ----------

  /** What a revoked token is from then on: refused by a record, or expired. */
  ghost predicate Ended(w: World, t: Token) { Refused(w.store, t) || !Unexpired(t, w.now) }

  lemma {:induction false} EndedStaysEnded(s: Settings, w: World, events: seq<Event>, t: Token)
    requires Ended(w, t)
    ensures Ended(Run(s, w, events), t) && Run(s, w, events).now >= w.now
  {
    if events != [] {
      var n := |events| - 1;
      EndedStaysEnded(s, w, events[..n], t);
      var later := Run(s, w, events[..n]);
      if Refused(later.store, t) { StepKeepsRefused(s, later, events[n], t); }
      SecondsAre(later.now, t.exp);
      SecondsAre(Step(s, later, events[n]).now, t.exp);
    }
  }

  /** Once revokeToken has run, for any token, no later request of any kind makes verifyToken accept it again. */
  lemma RevocationSurvivesRuns(s: Settings, w: World, t: Token, events: seq<Event>)
    ensures var later := Run(s, w.(store := RevokeToken(w.store, w.now, t)), events);
            !VerifyToken(later.store, later.now, t)
  {
    var revoked := w.(store := RevokeToken(w.store, w.now, t));
    SecondsAre(w.now, t.exp);
    EndedStaysEnded(s, revoked, events, t);
    var later := Run(s, revoked, events);
    if Refused(later.store, t) { RefusedNow(later.store, later.now, t); }
  }

  // ---------- one-time passwords ----------

  /** The last thing that happened to a user's password, at position i of the history. */
  ghost predicate LastOf(history: seq<HistoryEntry>, user: UserId, i: nat) {
    && i < |history| && history[i].user == user
    && forall j :: i < j < |history| ==> history[j].user != user
  }

  /** The stored code of a user is that of the last event about the password, a request at position i. */
  ghost predicate CodeFrom(w: World, user: UserId, i: nat)
    requires ResetOf(user) in w.store
  {
    && LastOf(w.history, user, i) && w.history[i].Forgot? && w.history[i].time <= w.now
    && w.store[ResetOf(user)]
       == Entry(Reset(ResetTransaction(w.history[i].otpCode, w.history[i].ipAddress)),
                Some(w.history[i].time + OTP_TTL))
  }

  ghost predicate CodesOk(w: World) {
    forall user :: ResetOf(user) in w.store ==> exists i :: CodeFrom(w, user, i)
  }

  /** A successful reset at position d used the code of the request at position i, in time. */
  ghost predicate Uses(history: seq<HistoryEntry>, d: nat, i: nat) {
    && i < d < |history| && history[i].Forgot?
    && history[i].user == history[d].user
    && history[i].otpCode == history[d].otpCode && history[i].ipAddress == history[d].ipAddress
    && history[i].time <= history[d].time < history[i].time + 15 * 60 * 1000
    && forall j :: i < j < d ==> history[j].user != history[d].user
  }

  ghost predicate ResetsOk(history: seq<HistoryEntry>) {
    forall d :: 0 <= d < |history| && history[d].Done? ==> exists i :: Uses(history, d, i)
  }

  lemma AppendKeepsResets(history: seq<HistoryEntry>, x: HistoryEntry)
    requires ResetsOk(history) && (x.Done? ==> exists i :: Uses(history + [x], |history|, i))
    ensures ResetsOk(history + [x])
  {
    var all := history + [x];
    forall d | 0 <= d < |all| && all[d].Done? ensures exists i :: Uses(all, d, i) {
      if d < |history| {
        assert history[d].Done?;
        var i :| Uses(history, d, i);
        assert Uses(all, d, i);
      }
    }
  }

  lemma LastSurvives(history: seq<HistoryEntry>, x: HistoryEntry, user: UserId, i: nat)
    requires LastOf(history, user, i) && x.user != user
    ensures LastOf(history + [x], user, i) && (history + [x])[i] == history[i]
  {
  }

  lemma ForgotKeepsCodes(w: World, user: UserId, otp: string, ip: string)
    requires CodesOk(w) && ResetsOk(w.history)
    ensures var w' := ForgotStep(w, Some(user), otp, ip).0; CodesOk(w') && ResetsOk(w'.history)
  {
    var w' := ForgotStep(w, Some(user), otp, ip).0;
    AppendKeepsResets(w.history, w'.history[|w.history|]);
    forall u | ResetOf(u) in w'.store ensures exists i :: CodeFrom(w', u, i) {
      if u == user {
        assert CodeFrom(w', u, |w.history|);
      } else {
        var i :| CodeFrom(w, u, i);
        LastSurvives(w.history, w'.history[|w.history|], u, i);
        assert CodeFrom(w', u, i);
      }
    }
  }

  lemma ResetKeepsCodes(w: World, user: UserId, otp: string, ip: string, password: string, ok: bool)
    requires CodesOk(w) && ResetsOk(w.history)
    ensures var w' := ResetStep(w, user, otp, ip, password, ok).0; CodesOk(w') && ResetsOk(w'.history)
  {
    var w' := ResetStep(w, user, otp, ip, password, ok).0;
    if w' != w {
      var n, x := |w.history|, Done(user, otp, ip, w.now);
      assert w'.history == w.history + [x];
      var i :| CodeFrom(w, user, i);
      assert Uses(w.history + [x], n, i);
      AppendKeepsResets(w.history, x);
      forall u | ResetOf(u) in w'.store ensures exists j :: CodeFrom(w', u, j) {
        var j :| CodeFrom(w, u, j);
        LastSurvives(w.history, x, u, j);
        assert CodeFrom(w', u, j);
      }
    }
  }

  /** Requests about tokens leave codes and history alone. */
  lemma OthersKeepCodes(w: World, w': World)
    requires CodesOk(w) && w'.history == w.history && w.now <= w'.now
    requires forall u :: ResetOf(u) in w'.store ==> ResetOf(u) in w.store && w'.store[ResetOf(u)] == w.store[ResetOf(u)]
    ensures CodesOk(w')
  {
    forall u | ResetOf(u) in w'.store ensures exists i :: CodeFrom(w', u, i) {
      var i :| CodeFrom(w, u, i);
      assert CodeFrom(w', u, i);
    }
  }

  lemma StepKeepsCodes(s: Settings, w: World, e: Event)
    requires CodesOk(w) && ResetsOk(w.history)
    ensures CodesOk(Step(s, w, e)) && ResetsOk(Step(s, w, e).history)
  {
    match e
    case ForgotPassword(None, otp, ip) =>
    case ForgotPassword(Some(user), otp, ip) => ForgotKeepsCodes(w, user, otp, ip);
    case ResetPassword(user, otp, ip, password, ok) => ResetKeepsCodes(w, user, otp, ip, password, ok);
    case _ => OthersKeepCodes(w, Step(s, w, e));
  }

  // ---------- all runs ----------

  /** What every reachable world satisfies. */
  ghost predicate WorldOk(s: Settings, w: World) {
    TokensOk(w) && PairsOk(s, w) && CodesOk(w) && ResetsOk(w.history)
  }

  lemma StepKeepsOk(s: Settings, w: World, e: Event)
    requires s.accessTtl > 0 && WorldOk(s, w)
    ensures WorldOk(s, Step(s, w, e))
  {
    StepKeepsTokens(s, w, e);
    StepKeepsPairsOk(s, w, e);
    StepKeepsCodes(s, w, e);
  }

  lemma {:induction false} RunOk(s: Settings, start: nat, events: seq<Event>)
    requires s.accessTtl > 0
    ensures WorldOk(s, Run(s, Boot(start), events))
  {
    if events != [] {
      var n := |events| - 1;
      RunOk(s, start, events[..n]);
      StepKeepsOk(s, Run(s, Boot(start), events[..n]), events[n]);
    }
  }

  lemma {:induction false} RunCodes(s: Settings, start: nat, events: seq<Event>)
    ensures CodesOk(Run(s, Boot(start), events)) && ResetsOk(Run(s, Boot(start), events).history)
  {
    if events != [] {
      var n := |events| - 1;
      RunCodes(s, start, events[..n]);
      StepKeepsCodes(s, Run(s, Boot(start), events[..n]), events[n]);
    }
  }

  /**
   In every run, each successful reset at position d of the history is preceded by a request for a code by
   the same user, with the same code and address, less than fifteen minutes earlier, and nothing about
   that user's password happened in between: it is the latest request, and no other reset used it.
   */
  lemma ResetsUseLatestCode(s: Settings, start: nat, events: seq<Event>, d: nat)
    requires var h := Run(s, Boot(start), events).history; d < |h| && h[d].Done?
    ensures exists i :: Uses(Run(s, Boot(start), events).history, d, i)
  {
    RunCodes(s, start, events);
  }

  /** Between two successful resets of a user there is a request for a new code. */
  lemma ResetsAreSeparated(s: Settings, start: nat, events: seq<Event>, c: nat, d: nat)
    requires var h := Run(s, Boot(start), events).history;
             c < d < |h| && h[c].Done? && h[d].Done? && h[c].user == h[d].user
    ensures var h := Run(s, Boot(start), events).history;
            exists i :: c < i < d && h[i].Forgot? && h[i].user == h[d].user && h[i].otpCode == h[d].otpCode
  {
    ResetsUseLatestCode(s, start, events, d);
    var h := Run(s, Boot(start), events).history;
    var i :| Uses(h, d, i);
    assert c < i;
  }

  /** The last thing that happened to the user's password is a request at position i, and its code is kept. */
  ghost predicate CodeKept(w: World, user: UserId, i: nat) {
    LastOf(w.history, user, i) && w.history[i].Forgot? ==>
      ResetOf(user) in w.store && CodeFrom(w, user, i)
  }

  ghost predicate CodesKept(w: World) { forall user, i: nat :: CodeKept(w, user, i) }

  lemma LastIsOne(history: seq<HistoryEntry>, user: UserId, i: nat, j: nat)
    requires LastOf(history, user, i) && LastOf(history, user, j)
    ensures i == j
  {
  }

  lemma LastBefore(history: seq<HistoryEntry>, x: HistoryEntry, user: UserId, i: nat)
    requires LastOf(history + [x], user, i)
    ensures if x.user == user then i == |history| else LastOf(history, user, i)
  {
    if x.user == user {
      assert LastOf(history + [x], user, |history|);
      LastIsOne(history + [x], user, i, |history|);
    } else {
      assert i < |history|;
      assert forall j :: i <= j < |history| ==> (history + [x])[j] == history[j];
    }
  }

  lemma ForgotKeepsKept(w: World, user: UserId, otp: string, ip: string)
    requires CodesKept(w)
    ensures CodesKept(ForgotStep(w, Some(user), otp, ip).0)
  {
    var w' := ForgotStep(w, Some(user), otp, ip).0;
    var x := Forgot(user, otp, ip, w.now);
    assert w'.history == w.history + [x];
    forall u, i: nat ensures CodeKept(w', u, i) {
      if LastOf(w'.history, u, i) {
        LastBefore(w.history, x, u, i);
        assert CodeKept(w, u, i);
      }
    }
  }

  lemma ResetKeepsKept(w: World, user: UserId, otp: string, ip: string, password: string, ok: bool)
    requires CodesKept(w)
    ensures CodesKept(ResetStep(w, user, otp, ip, password, ok).0)
  {
    var w' := ResetStep(w, user, otp, ip, password, ok).0;
    var x := Done(user, otp, ip, w.now);
    if w' != w {
      assert w'.history == w.history + [x];
      forall u, i: nat ensures CodeKept(w', u, i) {
        if LastOf(w'.history, u, i) {
          LastBefore(w.history, x, u, i);
          assert CodeKept(w, u, i);
        }
      }
    }
  }

  lemma OthersKeepKept(w: World, w': World)
    requires CodesKept(w) && w'.history == w.history && w.now <= w'.now
    requires forall u :: ResetOf(u) in w.store ==> ResetOf(u) in w'.store && w'.store[ResetOf(u)] == w.store[ResetOf(u)]
    ensures CodesKept(w')
  {
    forall u, i: nat ensures CodeKept(w', u, i) { assert CodeKept(w, u, i); }
  }

  lemma {:induction false} RunKept(s: Settings, start: nat, events: seq<Event>)
    ensures CodesKept(Run(s, Boot(start), events))
  {
    if events != [] {
      var n := |events| - 1;
      RunKept(s, start, events[..n]);
      var w := Run(s, Boot(start), events[..n]);
      match events[n]
      case ForgotPassword(None, otp, ip) =>
      case ForgotPassword(Some(user), otp, ip) => ForgotKeepsKept(w, user, otp, ip);
      case ResetPassword(user, otp, ip, password, ok) => ResetKeepsKept(w, user, otp, ip, password, ok);
      case _ => OthersKeepKept(w, Step(s, w, events[n]));
    }
  }

  /** The last thing that happened to the user's password is a request for that code, less than its lifetime ago. */
  ghost predicate Pending(w: World, user: UserId, otp: string, ip: string) {
    exists i: nat :: LastOf(w.history, user, i) && w.history[i].Forgot?
                && w.history[i].otpCode == otp && w.history[i].ipAddress == ip
                && w.now < w.history[i].time + 15 * 60 * 1000
  }

  lemma PendingIsCached(w: World, user: UserId, otp: string, ip: string)
    requires CodesOk(w) && CodesKept(w)
    ensures CachedReset(w.store, w.now, user) == Some(ResetTransaction(otp, ip)) <==> Pending(w, user, otp, ip)
  {
    if CachedReset(w.store, w.now, user) == Some(ResetTransaction(otp, ip)) {
      var i :| CodeFrom(w, user, i);
      assert LastOf(w.history, user, i);
    }
    if Pending(w, user, otp, ip) {
      var i: nat :| LastOf(w.history, user, i) && w.history[i].Forgot?
               && w.history[i].otpCode == otp && w.history[i].ipAddress == ip
               && w.now < w.history[i].time + 15 * 60 * 1000;
      assert CodeKept(w, user, i);
    }
  }

  /**
   In every run a reset goes through exactly when the last thing that happened to the user's password is a
   request with the same code and address, made less than fifteen minutes ago, and the password can be
   stored; then the password is changed and the code used up, and otherwise nothing changes.
   */
  lemma ResetSucceedsExactly(s: Settings, start: nat, events: seq<Event>, user: UserId, otp: string, ip: string,
                             password: string, updateOk: bool)
    ensures var w := Run(s, Boot(start), events);
            var (w', error) := ResetStep(w, user, otp, ip, password, updateOk);
            && (error.None? <==> Pending(w, user, otp, ip) && updateOk)
            && (error.Some? ==> w' == w)
            && (error.None? ==>
                  && user in w'.passwords && w'.passwords[user] == password
                  && (forall u :: u != user ==> (u in w'.passwords <==> u in w.passwords)
                                                && (u in w.passwords ==> w'.passwords[u] == w.passwords[u]))
                  && CachedReset(w'.store, w'.now, user).None?)
            && (if CachedReset(w.store, w.now, user).None? then error == Some(INVALID_RESET_PASSWORD_SESSION)
                else if !Pending(w, user, otp, ip) then error == Some(INVALID_OTP)
                else !updateOk ==> error == Some(UPDATE_FAILED))
  {
    RunCodes(s, start, events);
    RunKept(s, start, events);
    PendingIsCached(Run(s, Boot(start), events), user, otp, ip);
  }

  /** A request for a code is refused exactly for an unknown address or number; otherwise its code is pending. */
  lemma ForgotMakesPending(s: Settings, start: nat, events: seq<Event>, found: Option<UserId>, otp: string, ip: string)
    ensures var w := Run(s, Boot(start), events);
            var (w', error) := ForgotStep(w, found, otp, ip);
            && (error.None? <==> found.Some?)
            && (found.None? ==> error == Some(CUSTOMER_NOT_FOUND) && w' == w)
            && (found.Some? ==> Pending(w', found.value, otp, ip) && w'.passwords == w.passwords)
  {
    if found.Some? {
      var w := Run(s, Boot(start), events);
      var w' := ForgotStep(w, found, otp, ip).0;
      assert LastOf(w'.history, found.value, |w.history|);
    }
  }

  /** Nothing but a reset changes passwords. */
  lemma OthersKeepPasswords(s: Settings, w: World, e: Event)
    requires !e.ResetPassword?
    ensures Step(s, w, e).passwords == w.passwords
  {
  }
}
