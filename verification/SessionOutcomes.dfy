/**
 * When a request about sessions and passwords is granted, and exactly what it then changes: passwords,
 * reset grants, rotation, logout, and accounts that are shut out.
 */
module SessionOutcomes {
  import opened Wrappers
  import opened Sessions

  /** The account is there and nobody has shut it out. */
  predicate Open(db: Db, user: UserId) {
    && user in db.users && !db.users[user].deleted
    && db.users[user].status != INACTIVE && db.users[user].status != SUSPENDED
  }

  // ---------------------------------------------------------------- passwords

  /** The owner knows the current password, and the new one is allowed and another one. */
  predicate AcceptsChange(db: Db, e: Event, user: UserId) {
    e.ChangePassword? && e.user == user && user in db.users && e.currentMatches && e.policyOk && !e.sameAsCurrent
  }

  /** An unused, unexpired grant of an open account, for an allowed password that is another one. */
  predicate AcceptsReset(db: Db, e: Event, user: UserId) {
    e.ResetPassword? && Open(db, user) && e.policyOk && !e.sameAsCurrent
    && exists i | 0 <= i < |db.grants| ::
         db.grants[i].userId == user && db.grants[i].tokenHash == e.tokenHash && db.grants[i].usedAt.None?
         && e.now < db.grants[i].expiresAt
  }

  predicate AcceptsPassword(db: Db, e: Event, user: UserId) {
    AcceptsChange(db, e, user) || AcceptsReset(db, e, user)
  }

  /** A password is changed exactly by a known current one or by a live grant. */
  lemma PasswordChangesExactly(db: Db, cfg: Config, e: Event, user: UserId)
    requires GrantsOk(db.grants, db.clock)
    ensures Handle(db, cfg, e).1 == PasswordChanged(user) <==> AcceptsPassword(db, e, user)
  {
    if e.ResetPassword? { ResetsExactly(db, e.tokenHash, e.now, e.policyOk, e.sameAsCurrent, e.newHash, user, e); }
  }

  lemma ResetsExactly(db: Db, tokenHash: nat, now: int, policyOk: bool, same: bool, newHash: nat, user: UserId, e: Event)
    requires GrantsOk(db.grants, db.clock) && e == ResetPassword(tokenHash, now, policyOk, same, newHash)
    ensures OnResetPassword(db, tokenHash, now, policyOk, same, newHash).1 == PasswordChanged(user) <==> AcceptsReset(db, e, user)
  {
    var g := FindGrant(db.grants, tokenHash, now);
    if i: nat :| i < |db.grants| && db.grants[i].tokenHash == tokenHash && db.grants[i].usedAt.None?
                 && now < db.grants[i].expiresAt {
      assert Usable(db.grants[i], tokenHash, now) && g == Some(i);
    }
  }

  /** What a granted change stores, and that it touches nothing else. */
  lemma PasswordChangeStores(db: Db, cfg: Config, e: Event, user: UserId)
    requires Handle(db, cfg, e).1 == PasswordChanged(user)
    ensures e.ChangePassword? || e.ResetPassword?
    ensures user in db.users
    ensures var db', u := Handle(db, cfg, e).0, db.users[user];
            && db'.users == db.users[user := User(if e.ResetPassword? then ACTIVE else u.status, u.deleted, e.newHash,
                                                  u.sessionVersion + 1)]
            && |db'.tokens| == |db.tokens| && |db'.grants| == |db.grants| && db'.issued == db.issued
            && (forall i | 0 <= i < |db.tokens| ::
                  db'.tokens[i] == db.tokens[i].(isRevoked := db.tokens[i].isRevoked || db.tokens[i].userId == user))
            && (forall i | 0 <= i < |db.grants| ::
                  var g := db.grants[i];
                  db'.grants[i] == if e.ResetPassword? && g.userId == user && g.usedAt.None? then g.(usedAt := Some(e.now)) else g)
  {}

  lemma RefusedChangeKeepsAll(db: Db, cfg: Config, e: Event)
    requires e.ChangePassword? || e.ResetPassword?
    ensures Handle(db, cfg, e).1.PasswordChanged? || Handle(db, cfg, e) == (db, Refused)
  {}

  /** The last password that was granted in the run. */
  function LastPassword(db: Db, cfg: Config, events: seq<Event>, user: UserId, before: nat): nat
    decreases |events|
  {
    if events == [] then before
    else if !Enabled(db, events[0]) then LastPassword(db, cfg, events[1..], user, before)
    else LastPassword(Apply(db, cfg, events[0]), cfg, events[1..], user,
                      if AcceptsPassword(db, events[0], user) then events[0].newHash else before)
  }

  lemma StepSetsPassword(db: Db, cfg: Config, e: Event, user: UserId)
    requires GrantsOk(db.grants, db.clock) && user in db.users
    ensures user in Apply(db, cfg, e).users
    ensures Apply(db, cfg, e).users[user].passwordHash
         == if AcceptsPassword(db, e, user) then e.newHash else db.users[user].passwordHash
  {
    PasswordChangesExactly(db, cfg, e, user);
    if e.ChangePassword? || e.ResetPassword? {
      RefusedChangeKeepsAll(db, cfg, e);
      if Handle(db, cfg, e).1.PasswordChanged? { PasswordChangeStores(db, cfg, e, Handle(db, cfg, e).1.user); }
    } else {
      OthersKeepPasswords(db, cfg, e, user);
    }
  }

  lemma OthersKeepPasswords(db: Db, cfg: Config, e: Event, user: UserId)
    requires user in db.users && !e.ChangePassword? && !e.ResetPassword?
    ensures user in Apply(db, cfg, e).users && Apply(db, cfg, e).users[user].passwordHash == db.users[user].passwordHash
  {}

  /** In every run the stored password is the last one granted; nothing else ever changes it. */
  lemma {:induction false} PasswordIsTheLastGranted(db: Db, cfg: Config, events: seq<Event>, user: UserId)
    requires Inv(db, cfg) && user in db.users
    ensures user in Run(db, cfg, events).users
    ensures Run(db, cfg, events).users[user].passwordHash
         == LastPassword(db, cfg, events, user, db.users[user].passwordHash)
    decreases |events|
  {
    if events != [] {
      if Enabled(db, events[0]) {
        StepSetsPassword(db, cfg, events[0], user);
        StepKeepsInv(db, cfg, events[0]);
        PasswordIsTheLastGranted(Apply(db, cfg, events[0]), cfg, events[1..], user);
      } else {
        PasswordIsTheLastGranted(db, cfg, events[1..], user);
      }
    }
  }

  lemma StepKeepsInv(db: Db, cfg: Config, e: Event)
    requires Inv(db, cfg) && Enabled(db, e)
    ensures Inv(Apply(db, cfg, e), cfg)
  {
    RunKeepsInv(db, cfg, [e]);
    assert Run(db, cfg, [e]) == Apply(db, cfg, e);
  }

  // ---------------------------------------------------------------- reset grants

  /** The hash would be taken for a reset at that time. */
  predicate Redeemable(grants: seq<Grant>, tokenHash: nat, at: int) {
    exists i | 0 <= i < |grants| :: grants[i].tokenHash == tokenHash && grants[i].usedAt.None? && at < grants[i].expiresAt
  }

  /** No grant of the user in the last minute. */
  predicate RestedSince(grants: seq<Grant>, user: UserId, now: int) {
    forall i | 0 <= i < |grants| && grants[i].userId == user :: grants[i].createdAt < now - 60_000
  }

  /**
   * A request for a reset leaves a redeemable hash exactly for an open account that has not asked within a
   * minute and whose mail was delivered, until it expires; it voids the user's older grants and no others.
   * Whoever asks, for whatever account, is told the same.
   */
  lemma RequestGrantsExactly(db: Db, cfg: Config, user: UserId, now: int, tokenHash: nat, delivered: bool, at: int)
    requires Enabled(db, RequestReset(user, now, tokenHash, delivered))
    ensures OnRequestReset(db, cfg, user, now, tokenHash, delivered).1 == Done
    ensures var db' := OnRequestReset(db, cfg, user, now, tokenHash, delivered).0;
            var granted := Open(db, user) && RestedSince(db.grants, user, now);
            && (Redeemable(db'.grants, tokenHash, at) <==> granted && delivered && at < now + cfg.resetTtlMs)
            && |db'.grants| == |db.grants| + (if granted then 1 else 0)
            && (granted ==> db'.grants[|db.grants|].userId == user && db'.grants[|db.grants|].createdAt == now)
            && db'.users == db.users && db'.tokens == db.tokens && db'.issued == db.issued
            && forall i | 0 <= i < |db.grants| ::
                 var g := db.grants[i];
                 db'.grants[i] == if granted && g.userId == user && g.usedAt.None? then g.(usedAt := Some(now)) else g
  {
    var db' := OnRequestReset(db, cfg, user, now, tokenHash, delivered).0;
    forall i | 0 <= i < |db.grants| ensures db'.grants[i].tokenHash != tokenHash { assert db.grants[i].tokenHash != tokenHash; }
    if |db'.grants| > |db.grants| { assert db'.grants[|db.grants|].tokenHash == tokenHash; }
  }

  /** A delivered hash changes the password of whom it was sent to, as long as it has not expired. */
  lemma DeliveredGrantResets(db: Db, cfg: Config, user: UserId, now: int, tokenHash: nat, at: int, newHash: nat)
    requires Inv(db, cfg) && Enabled(db, RequestReset(user, now, tokenHash, true)) && now <= at < now + cfg.resetTtlMs
    requires Open(db, user) && RestedSince(db.grants, user, now)
    ensures var db' := Apply(db, cfg, RequestReset(user, now, tokenHash, true));
            Handle(db', cfg, ResetPassword(tokenHash, at, true, false, newHash)).1 == PasswordChanged(user)
  {
    var request := RequestReset(user, now, tokenHash, true);
    var db' := Apply(db, cfg, request);
    StepKeepsInv(db, cfg, request);
    RequestGrantsExactly(db, cfg, user, now, tokenHash, true, at);
    var g := db'.grants[|db.grants|];
    assert g.tokenHash == tokenHash && g.usedAt.None? && at < g.expiresAt;
    PasswordChangesExactly(db', cfg, ResetPassword(tokenHash, at, true, false, newHash), user);
  }

  // ---------------------------------------------------------------- signing in, refreshing, signing out

  /** A login whose credentials were accepted is granted exactly to an open account, and adds one pair. */
  lemma SignsInExactly(db: Db, cfg: Config, user: UserId, now: int, family: nat, jti: nat)
    ensures var (db', outcome) := OnSignIn(db, cfg, user, now, family, jti);
            if Open(db, user) then
              && outcome == SignedIn(RefreshToken(user, family, jti), AccessToken(user, db.users[user].sessionVersion))
              && db'.users == db.users[user := db.users[user].(status := ACTIVE)] && db'.grants == db.grants
              && db'.tokens == db.tokens + [Row(RefreshToken(user, family, jti), user, family, false, now, now + cfg.refreshLifetimeMs)]
              && db'.issued == db.issued + [AccessToken(user, db.users[user].sessionVersion)]
            else db' == db && outcome == Refused
  {}

  /** A pair that was just handed out works: the access token is accepted, and so is the refresh token while it is young. */
  lemma FreshPairWorks(db: Db, cfg: Config, e: Event, at: int, jti: nat)
    requires Inv(db, cfg) && Enabled(db, e) && Handle(db, cfg, e).1.SignedIn?
    requires e.SignIn? || e.Refresh?
    requires e.now <= at <= e.now + cfg.refreshLifetimeMs
    requires cfg.idleTimeoutMinutes > 0 ==> at - e.now <= cfg.idleTimeoutMinutes * 60_000
    ensures var db', pair := Apply(db, cfg, e), Handle(db, cfg, e).1;
            && Accepted(db', pair.access)
            && OnRefresh(db', cfg, pair.refresh, true, at, jti).1.SignedIn?
  {
    var db', pair := Apply(db, cfg, e), Handle(db, cfg, e).1;
    StepKeepsInv(db, cfg, e);
    var row := db'.tokens[|db'.tokens| - 1];
    assert row.token == pair.refresh && !row.isRevoked && at <= row.expiresAt && row.createdAt == e.now;
    RefreshSucceedsExactly(db', cfg, pair.refresh, true, at, jti);
  }

  /** The stored row of a token; there is at most one. */
  predicate Stored(db: Db, token: RefreshToken, i: nat) {
    i < |db.tokens| && db.tokens[i].token == token
  }

  /** The family falls with a token that was replayed, or that lay idle too long. */
  predicate FamilyFalls(db: Db, cfg: Config, row: Row, now: int) {
    row.isRevoked || (now <= row.expiresAt && cfg.idleTimeoutMinutes > 0 && now - row.createdAt > cfg.idleTimeoutMinutes * 60_000)
  }

  /** Exactly which rows a refresh revokes: the one presented, and its whole family on a replay or when idle. */
  lemma RefreshRevokesExactly(db: Db, cfg: Config, token: RefreshToken, jwtValid: bool, now: int, jti: nat, i: nat)
    requires Inv(db, cfg) && Stored(db, token, i)
    ensures var (db', outcome) := OnRefresh(db, cfg, token, jwtValid, now, jti);
            && |db.tokens| + (if outcome.SignedIn? then 1 else 0) == |db'.tokens|
            && (outcome.SignedIn? ==>
                  db'.tokens[|db.tokens|] == Row(outcome.refresh, token.sub, token.family, false, now, now + cfg.refreshLifetimeMs)
                  && outcome.refresh == RefreshToken(token.sub, token.family, jti))
            && (forall k | 0 <= k < |db.tokens| ::
                  var row := db.tokens[k];
                  db'.tokens[k] == row.(isRevoked := row.isRevoked
                    || (jwtValid && (k == i || (row.family == token.family && FamilyFalls(db, cfg, db.tokens[i], now))))))
            && db'.users == db.users && db'.grants == db.grants && (outcome.SignedIn? || outcome == Refused)
  {
    assert FindRow(db.tokens, token) == Some(i);
  }

  /** A token that is not stored refreshes nothing, and signing it out succeeds without effect. */
  lemma UnknownTokenKeepsAll(db: Db, cfg: Config, token: RefreshToken, jwtValid: bool, now: int, jti: nat)
    requires forall i :: !Stored(db, token, i)
    ensures OnRefresh(db, cfg, token, jwtValid, now, jti) == (db, Refused) && OnLogout(db, token) == (db, Done)
    ensures forall user :: OnRevokeSession(db, token, user) == (db, Refused)
  {
    assert FindRow(db.tokens, token).Some? ==> Stored(db, token, FindRow(db.tokens, token).value);
  }

  /** Signing out ends the family of the token for good, whatever follows, and touches no other. */
  lemma LogoutEndsTheFamily(db: Db, cfg: Config, token: RefreshToken, i: nat, events: seq<Event>)
    requires Inv(db, cfg) && Stored(db, token, i)
    ensures DeadFamily(Run(Apply(db, cfg, Logout(token)), cfg, events).tokens, token.family)
    ensures var db' := OnLogout(db, token).0;
            && db' == db.(tokens := db'.tokens) && |db'.tokens| == |db.tokens| && OnLogout(db, token).1 == Done
            && forall k | 0 <= k < |db.tokens| ::
                 db'.tokens[k] == db.tokens[k].(isRevoked := db.tokens[k].isRevoked || db.tokens[k].family == token.family)
  {
    assert FindRow(db.tokens, token) == Some(i);
    var db' := Apply(db, cfg, Logout(token));
    assert db'.tokens[i].family == token.family;
    StepKeepsInv(db, cfg, Logout(token));
    DeadFamilyStaysDead(db', cfg, events, token.family);
  }

  /** Ending one session is granted to its owner only and revokes that row only. */
  lemma RevokesOwnSessionExactly(db: Db, cfg: Config, token: RefreshToken, user: UserId, i: nat)
    requires Inv(db, cfg) && Stored(db, token, i)
    ensures var (db', outcome) := OnRevokeSession(db, token, user);
            && db' == db.(tokens := db'.tokens) && |db'.tokens| == |db.tokens|
            && (outcome == Done <==> token.sub == user) && (outcome != Done ==> outcome == Refused)
            && forall k | 0 <= k < |db.tokens| ::
                 db'.tokens[k] == db.tokens[k].(isRevoked := db.tokens[k].isRevoked || (k == i && token.sub == user))
  {
    assert FindRow(db.tokens, token) == Some(i);
  }

  // ---------------------------------------------------------------- accounts

  /** An account is made active by a login or a reset, set by an administrator, and only deleted or added besides. */
  lemma AccountsExactly(db: Db, cfg: Config, e: Event, user: UserId)
    requires GrantsOk(db.grants, db.clock)
    ensures var users := Apply(db, cfg, e).users;
            if user in db.users then
              && user in users
              && (users[user].deleted <==> db.users[user].deleted || e == SoftDelete(user))
              && users[user].status == (if e.SetStatus? && e.user == user then e.status
                                        else if (e.SignIn? && e.user == user && Open(db, user)) || AcceptsReset(db, e, user) then ACTIVE
                                        else db.users[user].status)
            else if e.CreateUser? && e.user == user then user in users && users[user] == User(ACTIVE, false, e.passwordHash, 1)
            else user !in users
  {
    if e.ResetPassword? {
      ResetsExactly(db, e.tokenHash, e.now, e.policyOk, e.sameAsCurrent, e.newHash, user, e);
      RefusedChangeKeepsAll(db, cfg, e);
      if Handle(db, cfg, e).1.PasswordChanged? { PasswordChangeStores(db, cfg, e, Handle(db, cfg, e).1.user); }
    }
  }

  // ---------------------------------------------------------------- accounts that are shut out

  /** Tokens of the user that were ever handed out. */
  function HandedOut(db: Db, user: UserId): nat {
    CountOf(db.issued, user)
  }

  function CountOf(issued: seq<AccessToken>, user: UserId): nat {
    if issued == [] then 0
    else CountOf(issued[..|issued| - 1], user) + if issued[|issued| - 1].sub == user then 1 else 0
  }

  lemma StepShutsOut(db: Db, cfg: Config, e: Event, user: UserId)
    requires user in db.users && !Open(db, user) && !(e.SetStatus? && e.user == user)
    ensures user in Apply(db, cfg, e).users && !Open(Apply(db, cfg, e), user)
    ensures HandedOut(Apply(db, cfg, e), user) == HandedOut(db, user)
    ensures forall a: AccessToken | a.sub == user :: !Accepted(Apply(db, cfg, e), a)
  {
    var db' := Apply(db, cfg, e);
    if db'.issued != db.issued { assert db'.issued[..|db'.issued| - 1] == db.issued; }
  }

  /**
   * Until an administrator sets its status, an account that is deleted or shut out gets no token and has
   * none accepted, whatever anybody does.
   */
  lemma {:induction false} ShutOutGetsNothing(db: Db, cfg: Config, events: seq<Event>, user: UserId)
    requires user in db.users && !Open(db, user)
    requires forall e :: e in events ==> !(e.SetStatus? && e.user == user)
    ensures var db' := Run(db, cfg, events);
            && user in db'.users && !Open(db', user) && HandedOut(db', user) == HandedOut(db, user)
            && forall a: AccessToken | a.sub == user :: !Accepted(db', a)
    decreases |events|
  {
    if events != [] {
      if Enabled(db, events[0]) {
        StepShutsOut(db, cfg, events[0], user);
        ShutOutGetsNothing(Apply(db, cfg, events[0]), cfg, events[1..], user);
      } else {
        ShutOutGetsNothing(db, cfg, events[1..], user);
      }
    }
  }
}
