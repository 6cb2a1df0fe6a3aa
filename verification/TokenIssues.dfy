/**
 Which tokens the service hands out, told by the requests and the clock alone: for whom, with which role,
 from when until when, and how long they can be used.
 */
module TokenIssues {
  import opened Common
  import opened Auth
  import opened AuthTheorems

  // ---------- the story ----------

  /** A request that made new tokens. */
  datatype Issue = Issue(user: UserId, role: nat, time: nat)

  function Clock(start: nat, events: seq<Event>): nat {
    if events == [] then start else
    Clock(start, events[..|events| - 1]) + match events[|events| - 1] case Tick(ms) => ms case _ => 0
  }

  /** The pair made at that time is still kept. */
  predicate Kept(s: Settings, issue: Option<Issue>, now: nat) {
    issue.Some? && now < issue.value.time + 1000 * s.accessTtl
  }

  /** Sign-in makes new tokens when none are kept; refreshing always does, for the user and role of the old token. */
  function Told(s: Settings, issue: Option<Issue>, e: Event, now: nat, user: UserId): Option<Issue> {
    match e
    case SignIn(u, role) => if u == user && !Kept(s, issue, now) then Some(Issue(user, role, now)) else issue
    case RefreshTokens(Some(t)) => if t.user == user then Some(Issue(user, t.role, now)) else issue
    case _ => issue
  }

  /** The request that made the user's latest tokens. */
  function LastIssue(s: Settings, start: nat, events: seq<Event>, user: UserId): Option<Issue> {
    if events == [] then None else
    var before := events[..|events| - 1];
    Told(s, LastIssue(s, start, before, user), events[|events| - 1], Clock(start, before), user)
  }

  /** Both tokens of the pair are for the user and role of the request, from its second on, for their lifetimes. */
  predicate Made(s: Settings, p: TokenPair, issue: Issue) {
    && p.accessToken.kind == Access && p.refreshToken.kind == Refresh
    && p.accessToken.user == issue.user == p.refreshToken.user
    && p.accessToken.role == issue.role == p.refreshToken.role
    && p.accessToken.iat == issue.time / 1000 == p.refreshToken.iat
    && p.accessToken.exp == issue.time / 1000 + s.accessTtl
    && p.refreshToken.exp == issue.time / 1000 + s.refreshTtl
  }

  // ---------- the run follows the story ----------

  ghost predicate PairFollows(s: Settings, store: Store, user: UserId, issue: Option<Issue>) {
    && (PairOf(user) in store <==> issue.Some?)
    && (issue.Some? ==>
          && issue.value.user == user
          && store[PairOf(user)].content.Pair? && Made(s, store[PairOf(user)].content.pair, issue.value)
          && store[PairOf(user)].expiresAt == Some(issue.value.time + 1000 * s.accessTtl))
  }

  lemma NewPairIsMade(s: Settings, store: Store, user: UserId, role: nat, now: nat)
    requires s.accessTtl > 0
    ensures Made(s, NewPair(s, user, role, now), Issue(user, role, now))
    ensures CachePair(store, now, user, NewPair(s, user, role, now))
            == store[PairOf(user) := Entry(Pair(NewPair(s, user, role, now)), Some(now + 1000 * s.accessTtl))]
  {
    assert ValidTime(NewPair(s, user, role, now).accessToken, now) == 1000 * s.accessTtl;
  }

  lemma CachedIsKept(s: Settings, store: Store, now: nat, user: UserId, issue: Option<Issue>)
    requires PairFollows(s, store, user, issue)
    ensures CachedPair(store, now, user).Some? <==> Kept(s, issue, now)
    ensures Kept(s, issue, now) ==> Made(s, CachedPair(store, now, user).value, issue.value)
  {
  }

  lemma SignInFollows(s: Settings, w: World, u: UserId, role: nat, user: UserId, issue: Option<Issue>)
    requires s.accessTtl > 0 && PairFollows(s, w.store, user, issue)
    ensures PairFollows(s, SignInStep(s, w, u, role).0.store, user, Told(s, issue, SignIn(u, role), w.now, user))
  {
    NewPairIsMade(s, w.store, u, role, w.now);
    if u == user { CachedIsKept(s, w.store, w.now, user, issue); }
  }

  lemma RefreshFollows(s: Settings, w: World, t: Token, user: UserId, issue: Option<Issue>)
    requires s.accessTtl > 0 && PairFollows(s, w.store, user, issue)
    ensures PairFollows(s, RefreshStep(s, w, Some(t)).0.store, user,
                        Told(s, issue, RefreshTokens(Some(t)), w.now, user))
  {
    RevokePairKeepsPairs(w.store, w.now, t.user);
    NewPairIsMade(s, RevokePair(w.store, w.now, t.user), t.user, t.role, w.now);
  }

  lemma StepFollows(s: Settings, w: World, e: Event, user: UserId, issue: Option<Issue>)
    requires s.accessTtl > 0 && PairFollows(s, w.store, user, issue)
    ensures PairFollows(s, Step(s, w, e).store, user, Told(s, issue, e, w.now, user))
  {
    match e
    case SignIn(u, role) => SignInFollows(s, w, u, role, user, issue);
    case RefreshTokens(Some(t)) => RefreshFollows(s, w, t, user, issue);
    case SignOut(u) => RevokePairKeepsPairs(w.store, w.now, u);
    case _ =>
  }

  /** In every run the clock shows the time that has passed, and the kept pairs are those of the latest requests. */
  lemma {:induction false} RunFollows(s: Settings, start: nat, events: seq<Event>, user: UserId)
    requires s.accessTtl > 0
    ensures var w := Run(s, Boot(start), events);
            w.now == Clock(start, events) && PairFollows(s, w.store, user, LastIssue(s, start, events, user))
  {
    if events != [] {
      var n := |events| - 1;
      RunFollows(s, start, events[..n], user);
      StepFollows(s, Run(s, Boot(start), events[..n]), events[n], user, LastIssue(s, start, events[..n], user));
    }
  }

  // ---------- what is handed out ----------

  /**
   In every run sign-in hands out the tokens of the user's latest request as long as they are kept, with the
   role of that request, and otherwise new ones for the user and role that sign in, from the current second on.
   */
  lemma SignInHandsOut(s: Settings, start: nat, events: seq<Event>, user: UserId, role: nat)
    requires s.accessTtl > 0
    ensures var w := Run(s, Boot(start), events);
            var (w', p) := SignInStep(s, w, user, role);
            var issue, now := LastIssue(s, start, events, user), Clock(start, events);
            && Made(s, p, if Kept(s, issue, now) then issue.value else Issue(user, role, now))
            && (Kept(s, issue, now) ==> w' == w)
            && CachedPair(w'.store, w'.now, user) == Some(p)
  {
    RunFollows(s, start, events, user);
    RunOk(s, start, events);
    var w := Run(s, Boot(start), events);
    CachedIsKept(s, w.store, w.now, user, LastIssue(s, start, events, user));
    NewPairIsMade(s, w.store, user, role, w.now);
    SignInBound(s, w, user, role);
  }

  /** Refreshing hands out new tokens for the user and role of any text that decodes, and refuses any other. */
  lemma RefreshHandsOut(s: Settings, start: nat, events: seq<Event>, token: Option<Token>)
    requires s.accessTtl > 0
    ensures var w := Run(s, Boot(start), events);
            var (w', r) := RefreshStep(s, w, token);
            && (token.None? ==> r == Err(UNAUTHORIZED) && w' == w)
            && (token.Some? ==>
                  && r.Ok? && Made(s, r.value, Issue(token.value.user, token.value.role, Clock(start, events)))
                  && CachedPair(w'.store, w'.now, token.value.user) == Some(r.value))
  {
    if token.Some? {
      var t := token.value;
      RunFollows(s, start, events, t.user);
      var w := Run(s, Boot(start), events);
      NewPairIsMade(s, RevokePair(w.store, w.now, t.user), t.user, t.role, w.now);
    }
  }

  // ---------- what is ended ----------

  /** Revoking a pair ends both its tokens. */
  lemma RevokeEndsBoth(w: World, user: UserId)
    requires CachedPair(w.store, w.now, user).Some?
    ensures var p, w' := CachedPair(w.store, w.now, user).value, w.(store := RevokePair(w.store, w.now, user));
            Ended(w', p.accessToken) && Ended(w', p.refreshToken)
  {
    var p := CachedPair(w.store, w.now, user).value;
    RevokePairRefuses(w.store, w.now, user);
    SecondsAre(w.now, p.refreshToken.exp);
  }

  lemma EndedIsRefused(s: Settings, w: World, events: seq<Event>, t: Token)
    requires Ended(w, t)
    ensures var later := Run(s, w, events); !VerifyToken(later.store, later.now, t)
  {
    EndedStaysEnded(s, w, events, t);
    var later := Run(s, w, events);
    if Refused(later.store, t) { RefusedNow(later.store, later.now, t); }
  }

  /** After signing out, neither token of the pair kept until then is ever accepted again, whatever follows. */
  lemma SignOutEndsBoth(s: Settings, start: nat, events: seq<Event>, user: UserId, p: TokenPair, later: seq<Event>)
    requires s.accessTtl > 0
    requires var issue := LastIssue(s, start, events, user);
             Kept(s, issue, Clock(start, events)) && Made(s, p, issue.value)
    ensures var w := Run(s, SignOutStep(Run(s, Boot(start), events), user), later);
            !VerifyToken(w.store, w.now, p.accessToken) && !VerifyToken(w.store, w.now, p.refreshToken)
  {
    RunFollows(s, start, events, user);
    var w := Run(s, Boot(start), events);
    CachedIsKept(s, w.store, w.now, user, LastIssue(s, start, events, user));
    RevokeEndsBoth(w, user);
    EndedIsRefused(s, SignOutStep(w, user), later, p.accessToken);
    EndedIsRefused(s, SignOutStep(w, user), later, p.refreshToken);
  }

  /** So it is after refreshing, for the pair that was kept before. */
  lemma RefreshEndsBoth(s: Settings, start: nat, events: seq<Event>, t: Token, p: TokenPair, later: seq<Event>)
    requires s.accessTtl > 0
    requires var issue := LastIssue(s, start, events, t.user);
             Kept(s, issue, Clock(start, events)) && Made(s, p, issue.value)
    ensures var w := Run(s, RefreshStep(s, Run(s, Boot(start), events), Some(t)).0, later);
            !VerifyToken(w.store, w.now, p.accessToken) && !VerifyToken(w.store, w.now, p.refreshToken)
  {
    RunFollows(s, start, events, t.user);
    var w := Run(s, Boot(start), events);
    CachedIsKept(s, w.store, w.now, t.user, LastIssue(s, start, events, t.user));
    RevokeEndsBoth(w, t.user);
    var w' := RefreshStep(s, w, Some(t)).0;
    assert Ended(w', p.accessToken) && Ended(w', p.refreshToken);
    EndedIsRefused(s, w', later, p.accessToken);
    EndedIsRefused(s, w', later, p.refreshToken);
  }

  // ---------- how long a token can be used ----------

  /** The request revokes tokens of the user. */
  predicate Revokes(e: Event, user: UserId) {
    e == SignOut(user) || (e.RefreshTokens? && e.token.Some? && e.token.value.user == user)
  }

  lemma RevokePairOfOther(s: Settings, store: Store, now: nat, other: UserId, issue: Option<Issue>, t: Token)
    requires PairFollows(s, store, other, issue) && t.user != other
    ensures Revoked(t) in RevokePair(store, now, other) <==> Revoked(t) in store
    ensures Revoked(t) in store ==> RevokePair(store, now, other)[Revoked(t)] == store[Revoked(t)]
  {
  }

  lemma StepLeavesToken(s: Settings, start: nat, events: seq<Event>, e: Event, t: Token)
    requires s.accessTtl > 0 && !Revokes(e, t.user)
    ensures var w := Run(s, Boot(start), events);
            && (Revoked(t) in Step(s, w, e).store <==> Revoked(t) in w.store)
            && (Revoked(t) in w.store ==> Step(s, w, e).store[Revoked(t)] == w.store[Revoked(t)])
  {
    var w := Run(s, Boot(start), events);
    match e
    case SignOut(u) =>
      RunFollows(s, start, events, u);
      RevokePairOfOther(s, w.store, w.now, u, LastIssue(s, start, events, u), t);
    case RefreshTokens(Some(x)) =>
      RunFollows(s, start, events, x.user);
      RevokePairOfOther(s, w.store, w.now, x.user, LastIssue(s, start, events, x.user), t);
    case _ =>
  }

  lemma RunOne(s: Settings, start: nat, events: seq<Event>, e: Event)
    ensures Run(s, Boot(start), events + [e]) == Step(s, Run(s, Boot(start), events), e)
  {
    assert (events + [e])[..|events|] == events;
  }

  /** A usable token has no record. */
  ghost predicate Unrecorded(s: Settings, start: nat, events: seq<Event>, t: Token) {
    Revoked(t) !in Run(s, Boot(start), events).store
  }

  lemma {:induction false} StaysUnrecorded(s: Settings, start: nat, events: seq<Event>, more: seq<Event>, t: Token)
    requires s.accessTtl > 0 && Unrecorded(s, start, events, t)
    requires forall i :: 0 <= i < |more| ==> !Revokes(more[i], t.user)
    ensures Unrecorded(s, start, events + more, t)
  {
    if more == [] {
      assert events + more == events;
    } else {
      var n := |more| - 1;
      StaysUnrecorded(s, start, events, more[..n], t);
      StepLeavesToken(s, start, events + more[..n], more[n], t);
      RunOne(s, start, events + more[..n], more[n]);
      assert events + more == events + more[..n] + [more[n]];
    }
  }

  /**
   A token nobody has revoked is accepted until it expires, and no longer, as long as its user neither signs
   out nor refreshes; what other users do does not matter.
   */
  lemma UsableUntilExpiry(s: Settings, start: nat, events: seq<Event>, more: seq<Event>, t: Token)
    requires s.accessTtl > 0 && Unrecorded(s, start, events, t)
    requires forall i :: 0 <= i < |more| ==> !Revokes(more[i], t.user)
    ensures var w := Run(s, Boot(start), events + more);
            VerifyToken(w.store, w.now, t) <==> Clock(start, events + more) / 1000 < t.exp
  {
    StaysUnrecorded(s, start, events, more, t);
    RunFollows(s, start, events + more, t.user);
  }
}
