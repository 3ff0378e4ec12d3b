/**
 * Sessions and passwords, one request per step: refresh-token families with rotation and reuse
 * detection, the idle window, password changes, and single-use reset grants.
 *
 * Rows are kept in the order they were inserted and never removed, so an index names a row for ever.
 * JWT verification and password comparison are answers the environment gives; fresh random values are
 * fresh.
 */
module Sessions {
  import opened Wrappers

  type UserId = nat

  datatype Status = ACTIVE | INACTIVE | SUSPENDED | LOCKED

  datatype User = User(status: Status, deleted: bool, passwordHash: nat, sessionVersion: nat)

  /** The claims of a refresh JWT; the stored row is found by the hash of the whole token. */
  datatype RefreshToken = RefreshToken(sub: UserId, family: nat, jti: nat)

  datatype Row = Row(token: RefreshToken, userId: UserId, family: nat, isRevoked: bool, createdAt: int, expiresAt: int)

  datatype AccessToken = AccessToken(sub: UserId, sessionVersion: nat)

  datatype Grant = Grant(userId: UserId, tokenHash: nat, createdAt: int, expiresAt: int, usedAt: Option<int>)

  datatype Config = Config(idleTimeoutMinutes: int, refreshLifetimeMs: nat, resetTtlMs: nat)

  datatype Db = Db(users: map<UserId, User>, tokens: seq<Row>, grants: seq<Grant>, issued: seq<AccessToken>, clock: int)

  const REQUEST_THROTTLE_MS := 60_000

  datatype Outcome = SignedIn(refresh: RefreshToken, access: AccessToken) | PasswordChanged(user: UserId) | Done | Refused

  datatype Event =
    | SignIn(user: UserId, now: int, family: nat, jti: nat)
    | Refresh(token: RefreshToken, jwtValid: bool, now: int, jti: nat)
    | Logout(token: RefreshToken)
    | ChangePassword(user: UserId, policyOk: bool, currentMatches: bool, sameAsCurrent: bool, newHash: nat)
    | RequestReset(user: UserId, now: int, tokenHash: nat, delivered: bool)
    | ResetPassword(tokenHash: nat, now: int, policyOk: bool, sameAsCurrent: bool, newHash: nat)
    | RevokeSession(token: RefreshToken, user: UserId)
    | CreateUser(user: UserId, passwordHash: nat)
    | BumpSession(user: UserId)
    | SetStatus(user: UserId, status: Status)
    | SoftDelete(user: UserId)

  // ---------------------------------------------------------------- repository updates

  function RevokeFamily(rows: seq<Row>, family: nat): seq<Row> {
    seq(|rows|, i requires 0 <= i < |rows| => if rows[i].family == family then rows[i].(isRevoked := true) else rows[i])
  }

  function RevokeUser(rows: seq<Row>, user: UserId): seq<Row> {
    seq(|rows|, i requires 0 <= i < |rows| => if rows[i].userId == user then rows[i].(isRevoked := true) else rows[i])
  }

  function RevokeAt(rows: seq<Row>, i: nat): seq<Row>
    requires i < |rows|
  {
    rows[i := rows[i].(isRevoked := true)]
  }

  /** Mark every unused grant of the user as used. */
  function UseGrants(grants: seq<Grant>, user: UserId, now: int): seq<Grant> {
    seq(|grants|, i requires 0 <= i < |grants| =>
      if grants[i].userId == user && grants[i].usedAt.None? then grants[i].(usedAt := Some(now)) else grants[i])
  }

  /** `findUnique` by token hash. */
  function FindRow(rows: seq<Row>, token: RefreshToken): (r: Option<nat>)
    ensures r.Some? ==> r.value < |rows| && rows[r.value].token == token
    ensures r.None? ==> forall i | 0 <= i < |rows| :: rows[i].token != token
  {
    if rows == [] then None
    else if rows[|rows| - 1].token == token then Some(|rows| - 1)
    else FindRow(rows[..|rows| - 1], token)
  }

  function FindGrant(grants: seq<Grant>, tokenHash: nat, now: int): (r: Option<nat>)
    ensures r.Some? ==> r.value < |grants| && Usable(grants[r.value], tokenHash, now)
    ensures r.None? ==> forall i | 0 <= i < |grants| :: !Usable(grants[i], tokenHash, now)
  {
    if grants == [] then None
    else if Usable(grants[|grants| - 1], tokenHash, now) then Some(|grants| - 1)
    else FindGrant(grants[..|grants| - 1], tokenHash, now)
  }

  predicate Usable(g: Grant, tokenHash: nat, now: int) {
    g.tokenHash == tokenHash && g.usedAt.None? && g.expiresAt > now
  }

  predicate Throttled(grants: seq<Grant>, user: UserId, now: int) {
    exists i | 0 <= i < |grants| :: grants[i].userId == user && grants[i].createdAt >= now - REQUEST_THROTTLE_MS
  }

  predicate IdleExpired(createdAt: int, now: int, idleTimeoutMinutes: int) {
    idleTimeoutMinutes > 0 && now - createdAt > idleTimeoutMinutes * 60_000
  }

  predicate Barred(u: User) {
    u.status == INACTIVE || u.status == SUSPENDED
  }

  /** The update `{ passwordHash, sessionVersion: { increment: 1 } }`. */
  function NewPassword(db: Db, user: UserId, newHash: nat): Db
    requires user in db.users
  {
    var u := db.users[user];
    db.(users := db.users[user := u.(passwordHash := newHash, sessionVersion := u.sessionVersion + 1)],
        tokens := RevokeUser(db.tokens, user))
  }

  // ---------------------------------------------------------------- one request

  /** Store a refresh token and hand out the pair. */
  function GenerateTokens(db: Db, cfg: Config, user: UserId, now: int, family: nat, jti: nat): (Db, Outcome)
    requires user in db.users
  {
    var token := RefreshToken(user, family, jti);
    var access := AccessToken(user, db.users[user].sessionVersion);
    (db.(tokens := db.tokens + [Row(token, user, family, false, now, now + cfg.refreshLifetimeMs)],
         issued := db.issued + [access]),
     SignedIn(token, access))
  }

  /** The common tail of both logins, once the credentials have been accepted. */
  function OnSignIn(db: Db, cfg: Config, user: UserId, now: int, family: nat, jti: nat): (Db, Outcome) {
    if user !in db.users || db.users[user].deleted || Barred(db.users[user]) then (db, Refused)
    else GenerateTokens(db.(users := db.users[user := db.users[user].(status := ACTIVE)]), cfg, user, now, family, jti)
  }

  function OnRefresh(db: Db, cfg: Config, token: RefreshToken, jwtValid: bool, now: int, jti: nat): (Db, Outcome) {
    if !jwtValid then (db, Refused)
    else match FindRow(db.tokens, token)
      case None => (db, Refused)
      case Some(i) =>
        var row := db.tokens[i];
        if row.isRevoked then (db.(tokens := RevokeFamily(db.tokens, row.family)), Refused)
        else if row.expiresAt < now then (db.(tokens := RevokeAt(db.tokens, i)), Refused)
        else if IdleExpired(row.createdAt, now, cfg.idleTimeoutMinutes)
        then (db.(tokens := RevokeFamily(db.tokens, row.family)), Refused)
        else
          var rotated := db.(tokens := RevokeAt(db.tokens, i));
          // the user is read without lockedUntil, so LOCKED never refuses here
          if token.sub !in db.users || db.users[token.sub].deleted || Barred(db.users[token.sub]) then (rotated, Refused)
          else GenerateTokens(rotated, cfg, token.sub, now, token.family, jti)
  }

  function OnLogout(db: Db, token: RefreshToken): (Db, Outcome) {
    match FindRow(db.tokens, token)
    case None => (db, Done)
    case Some(i) => (db.(tokens := RevokeFamily(db.tokens, db.tokens[i].family)), Done)
  }

  function OnChangePassword(db: Db, user: UserId, policyOk: bool, currentMatches: bool, sameAsCurrent: bool, newHash: nat)
    : (Db, Outcome)
  {
    if !policyOk || user !in db.users || !currentMatches || sameAsCurrent then (db, Refused)
    else (NewPassword(db, user, newHash), PasswordChanged(user))
  }

  function OnRequestReset(db: Db, cfg: Config, user: UserId, now: int, tokenHash: nat, delivered: bool): (Db, Outcome) {
    if user !in db.users || db.users[user].deleted || Barred(db.users[user]) || Throttled(db.grants, user, now)
    then (db, Done)
    else
      var grant := Grant(user, tokenHash, now, now + cfg.resetTtlMs, if delivered then None else Some(now));
      (db.(grants := UseGrants(db.grants, user, now) + [grant]), Done)
  }

  /** `consumePasswordResetToken`: one transaction that claims the grant before it looks at the account. */
  function ConsumeGrant(db: Db, tokenHash: nat, now: int, newHash: nat): (Db, Option<UserId>) {
    match FindGrant(db.grants, tokenHash, now)
    case None => (db, None)
    case Some(i) =>
      var user := db.grants[i].userId;
      var claimed := db.(grants := db.grants[i := db.grants[i].(usedAt := Some(now))]);
      if user !in db.users || db.users[user].deleted || Barred(db.users[user]) then (claimed, None)
      else
        var active := claimed.(users := claimed.users[user := claimed.users[user].(status := ACTIVE)]);
        (NewPassword(active, user, newHash).(grants := UseGrants(claimed.grants, user, now)), Some(user))
  }

  function OnResetPassword(db: Db, tokenHash: nat, now: int, policyOk: bool, sameAsCurrent: bool, newHash: nat)
    : (Db, Outcome)
  {
    if !policyOk then (db, Refused)
    else match FindGrant(db.grants, tokenHash, now)
      case None => (db, Refused)
      case Some(i) =>
        var user := db.grants[i].userId;
        if user !in db.users || db.users[user].deleted || Barred(db.users[user]) || sameAsCurrent then (db, Refused)
        else match ConsumeGrant(db, tokenHash, now, newHash)
          case (db', Some(u)) => (db', PasswordChanged(u))
          case (db', None) => (db', Refused)
  }

  function OnRevokeSession(db: Db, token: RefreshToken, user: UserId): (Db, Outcome) {
    match FindRow(db.tokens, token)
    case Some(i) => if db.tokens[i].userId == user then (db.(tokens := RevokeAt(db.tokens, i)), Done) else (db, Refused)
    case None => (db, Refused)
  }

  function UpdateUser(db: Db, user: UserId, u: User): Db { db.(users := db.users[user := u]) }

  function Handle(db: Db, cfg: Config, e: Event): (Db, Outcome) {
    match e
    case SignIn(user, now, family, jti) => OnSignIn(db, cfg, user, now, family, jti)
    case Refresh(token, jwtValid, now, jti) => OnRefresh(db, cfg, token, jwtValid, now, jti)
    case Logout(token) => OnLogout(db, token)
    case ChangePassword(user, policyOk, currentMatches, same, newHash) =>
      OnChangePassword(db, user, policyOk, currentMatches, same, newHash)
    case RequestReset(user, now, tokenHash, delivered) => OnRequestReset(db, cfg, user, now, tokenHash, delivered)
    case ResetPassword(tokenHash, now, policyOk, same, newHash) =>
      OnResetPassword(db, tokenHash, now, policyOk, same, newHash)
    case RevokeSession(token, user) => OnRevokeSession(db, token, user)
    case CreateUser(user, passwordHash) =>
      if user in db.users then (db, Refused) else (UpdateUser(db, user, User(ACTIVE, false, passwordHash, 1)), Done)
    case BumpSession(user) =>
      if user !in db.users then (db, Done)
      else (UpdateUser(db, user, db.users[user].(sessionVersion := db.users[user].sessionVersion + 1)), Done)
    case SetStatus(user, status) =>
      if user !in db.users then (db, Done) else (UpdateUser(db, user, db.users[user].(status := status)), Done)
    case SoftDelete(user) =>
      if user !in db.users then (db, Done) else (UpdateUser(db, user, db.users[user].(deleted := true)), Done)
  }

  /** The clock does not run backwards, and random values have not been drawn before. */
  predicate Enabled(db: Db, e: Event) {
    match e
    case SignIn(user, now, family, jti) =>
      now >= db.clock && (forall i | 0 <= i < |db.tokens| :: db.tokens[i].family != family)
    case Refresh(token, _, now, jti) =>
      now >= db.clock && (forall i | 0 <= i < |db.tokens| :: db.tokens[i].token.jti != jti)
    case RequestReset(_, now, tokenHash, _) =>
      now >= db.clock && (forall i | 0 <= i < |db.grants| :: db.grants[i].tokenHash != tokenHash)
    case ResetPassword(_, now, _, _, _) => now >= db.clock
    case _ => true
  }

  function Now(db: Db, e: Event): int {
    match e
    case SignIn(_, now, _, _) => now
    case Refresh(_, _, now, _) => now
    case RequestReset(_, now, _, _) => now
    case ResetPassword(_, now, _, _, _) => now
    case _ => db.clock
  }

  function Apply(db: Db, cfg: Config, e: Event): Db {
    Handle(db, cfg, e).0.(clock := Now(db, e))
  }

  function Run(db: Db, cfg: Config, events: seq<Event>): Db
    decreases |events|
  {
    if events == [] then db
    else Run(if Enabled(db, events[0]) then Apply(db, cfg, events[0]) else db, cfg, events[1..])
  }

  // ---------------------------------------------------------------- the invariant

  predicate SameChain(rows: seq<Row>, i: int, j: int) {
    0 <= i < j < |rows| && rows[i].family == rows[j].family
  }

  /** Row `j` was issued when row `i` was rotated. */
  predicate Successor(rows: seq<Row>, i: int, j: int) {
    SameChain(rows, i, j) && forall k | i < k < j :: rows[k].family != rows[i].family
  }

  ghost predicate ChainsOk(rows: seq<Row>, clock: int, cfg: Config) {
    && (forall i | 0 <= i < |rows| :: rows[i].userId == rows[i].token.sub && rows[i].family == rows[i].token.family
                                      && rows[i].createdAt <= clock)
    && (forall i, j | 0 <= i < j < |rows| :: rows[i].token != rows[j].token)
    && (forall i, j | SameChain(rows, i, j) ::
          rows[i].isRevoked && rows[i].userId == rows[j].userId && rows[i].createdAt <= rows[j].createdAt)
    && (cfg.idleTimeoutMinutes > 0 ==>
          forall i, j | Successor(rows, i, j) :: rows[j].createdAt - rows[i].createdAt <= cfg.idleTimeoutMinutes * 60_000)
  }

  ghost predicate GrantsOk(grants: seq<Grant>, clock: int) {
    && (forall i | 0 <= i < |grants| :: grants[i].createdAt <= clock)
    && (forall i, j | 0 <= i < j < |grants| :: grants[i].tokenHash != grants[j].tokenHash)
    && (forall i, j | 0 <= i < j < |grants| && grants[i].userId == grants[j].userId ::
          grants[i].usedAt.Some? && grants[j].createdAt - grants[i].createdAt > REQUEST_THROTTLE_MS)
  }

  /** No access token is ahead of its user. */
  ghost predicate IssuedOk(db: Db) {
    forall a | a in db.issued :: a.sub in db.users && a.sessionVersion <= db.users[a.sub].sessionVersion
  }

  ghost predicate Inv(db: Db, cfg: Config) {
    ChainsOk(db.tokens, db.clock, cfg) && GrantsOk(db.grants, db.clock) && IssuedOk(db)
  }

  /** The same rows, possibly with more of them revoked. */
  predicate MoreRevoked(rows: seq<Row>, rows': seq<Row>) {
    |rows'| == |rows|
    && forall i | 0 <= i < |rows| :: rows'[i] == rows[i].(isRevoked := rows'[i].isRevoked)
                                     && (rows[i].isRevoked ==> rows'[i].isRevoked)
  }

  /** The same grants, possibly with more of them used. */
  predicate MoreUsed(grants: seq<Grant>, grants': seq<Grant>) {
    |grants'| == |grants|
    && forall i | 0 <= i < |grants| :: grants'[i] == grants[i].(usedAt := grants'[i].usedAt)
                                       && (grants[i].usedAt.Some? ==> grants'[i].usedAt == grants[i].usedAt)
  }

  lemma RevokingKeepsChains(rows: seq<Row>, rows': seq<Row>, clock: int, clock': int, cfg: Config)
    requires ChainsOk(rows, clock, cfg) && MoreRevoked(rows, rows') && clock <= clock'
    ensures ChainsOk(rows', clock', cfg)
  {
    forall i, j | SameChain(rows', i, j)
      ensures rows'[i].isRevoked && rows'[i].userId == rows'[j].userId && rows'[i].createdAt <= rows'[j].createdAt
    {
      assert SameChain(rows, i, j);
    }
    forall i, j | Successor(rows', i, j) && cfg.idleTimeoutMinutes > 0
      ensures rows'[j].createdAt - rows'[i].createdAt <= cfg.idleTimeoutMinutes * 60_000
    {
      assert forall k | i < k < j :: rows[k].family == rows'[k].family;
      assert Successor(rows, i, j);
    }
  }

  /** A row for a new token, of a new family or following the family's newest row within the idle window. */
  predicate MayAppend(rows: seq<Row>, row: Row, cfg: Config) {
    && row.userId == row.token.sub && row.family == row.token.family
    && (forall i | 0 <= i < |rows| :: rows[i].token != row.token && rows[i].createdAt <= row.createdAt)
    && (forall i | 0 <= i < |rows| && rows[i].family == row.family ::
          rows[i].isRevoked && rows[i].userId == row.userId)
    && (cfg.idleTimeoutMinutes > 0 ==>
          forall i | 0 <= i < |rows| && rows[i].family == row.family
                     && (forall k | i < k < |rows| :: rows[k].family != row.family) ::
            row.createdAt - rows[i].createdAt <= cfg.idleTimeoutMinutes * 60_000)
  }

  lemma AppendKeepsChains(rows: seq<Row>, row: Row, clock: int, cfg: Config)
    requires ChainsOk(rows, clock, cfg) && MayAppend(rows, row, cfg) && clock <= row.createdAt
    ensures ChainsOk(rows + [row], row.createdAt, cfg)
  {
    var rows' := rows + [row];
    forall i, j | SameChain(rows', i, j)
      ensures rows'[i].isRevoked && rows'[i].userId == rows'[j].userId && rows'[i].createdAt <= rows'[j].createdAt
    {
      if j < |rows| { assert SameChain(rows, i, j); }
    }
    forall i, j | Successor(rows', i, j) && cfg.idleTimeoutMinutes > 0
      ensures rows'[j].createdAt - rows'[i].createdAt <= cfg.idleTimeoutMinutes * 60_000
    {
      assert forall k | i < k < j :: rows'[k] == rows[k];
      if j < |rows| { assert Successor(rows, i, j); }
    }
  }

  lemma UsingKeepsGrants(grants: seq<Grant>, grants': seq<Grant>, clock: int, clock': int)
    requires GrantsOk(grants, clock) && MoreUsed(grants, grants') && clock <= clock'
    ensures GrantsOk(grants', clock')
  {}

  // ---------------------------------------------------------------- every request keeps it

  lemma SignInKeepsChains(db: Db, cfg: Config, e: Event)
    requires ChainsOk(db.tokens, db.clock, cfg) && e.SignIn? && Enabled(db, e)
    ensures ChainsOk(Apply(db, cfg, e).tokens, e.now, cfg)
  {
    var row := Row(RefreshToken(e.user, e.family, e.jti), e.user, e.family, false, e.now, e.now + cfg.refreshLifetimeMs);
    assert Apply(db, cfg, e).tokens in {db.tokens, db.tokens + [row]};
    if Apply(db, cfg, e).tokens == db.tokens {
      RevokingKeepsChains(db.tokens, db.tokens, db.clock, e.now, cfg);
    } else {
      FirstOfFamily(db.tokens, row, db.clock, cfg);
      AppendKeepsChains(db.tokens, row, db.clock, cfg);
    }
  }

  lemma FirstOfFamily(rows: seq<Row>, row: Row, clock: int, cfg: Config)
    requires ChainsOk(rows, clock, cfg) && clock <= row.createdAt
    requires row.userId == row.token.sub && row.family == row.token.family
    requires forall i | 0 <= i < |rows| :: rows[i].family != row.family
    ensures MayAppend(rows, row, cfg)
  {}

  /** The row a successful refresh of `token` adds. */
  function NextRow(cfg: Config, token: RefreshToken, now: int, jti: nat): Row {
    Row(RefreshToken(token.sub, token.family, jti), token.sub, token.family, false, now, now + cfg.refreshLifetimeMs)
  }

  /** The token table after a refresh: as it was, with a family or a token revoked, or rotated. */
  lemma RefreshShapes(db: Db, cfg: Config, token: RefreshToken, jwtValid: bool, now: int, jti: nat)
    ensures var rows' := OnRefresh(db, cfg, token, jwtValid, now, jti).0.tokens;
            match FindRow(db.tokens, token)
            case None => rows' == db.tokens
            case Some(i) =>
              || rows' == db.tokens || rows' == RevokeFamily(db.tokens, db.tokens[i].family) || rows' == RevokeAt(db.tokens, i)
              || (&& rows' == RevokeAt(db.tokens, i) + [NextRow(cfg, token, now, jti)]
                  && !db.tokens[i].isRevoked && !IdleExpired(db.tokens[i].createdAt, now, cfg.idleTimeoutMinutes))
  {}

  lemma RotationKeepsChains(rows: seq<Row>, i: nat, next: Row, clock: int, cfg: Config)
    requires ChainsOk(rows, clock, cfg) && i < |rows| && !rows[i].isRevoked && clock <= next.createdAt
    requires !IdleExpired(rows[i].createdAt, next.createdAt, cfg.idleTimeoutMinutes)
    requires next.userId == next.token.sub == rows[i].userId && next.family == next.token.family == rows[i].family
    requires forall k | 0 <= k < |rows| :: rows[k].token.jti != next.token.jti
    ensures ChainsOk(RevokeAt(rows, i) + [next], next.createdAt, cfg)
  {
    RevokingKeepsChains(rows, RevokeAt(rows, i), clock, next.createdAt, cfg);
    NextOfFamily(rows, i, next, clock, cfg);
    AppendKeepsChains(RevokeAt(rows, i), next, next.createdAt, cfg);
  }

  lemma RefreshKeepsChains(db: Db, cfg: Config, e: Event)
    requires ChainsOk(db.tokens, db.clock, cfg) && e.Refresh? && Enabled(db, e)
    ensures ChainsOk(Apply(db, cfg, e).tokens, e.now, cfg)
  {
    var rows' := Apply(db, cfg, e).tokens;
    RefreshShapes(db, cfg, e.token, e.jwtValid, e.now, e.jti);
    match FindRow(db.tokens, e.token)
    case None => RevokingKeepsChains(db.tokens, rows', db.clock, e.now, cfg);
    case Some(i) =>
      var next := NextRow(cfg, e.token, e.now, e.jti);
      if rows' == RevokeAt(db.tokens, i) + [next] {
        RotationKeepsChains(db.tokens, i, next, db.clock, cfg);
      } else {
        RevokingKeepsChains(db.tokens, rows', db.clock, e.now, cfg);
      }
  }

  lemma NextOfFamily(rows: seq<Row>, i: nat, next: Row, clock: int, cfg: Config)
    requires ChainsOk(rows, clock, cfg) && i < |rows| && !rows[i].isRevoked && clock <= next.createdAt
    requires !IdleExpired(rows[i].createdAt, next.createdAt, cfg.idleTimeoutMinutes)
    requires next.userId == next.token.sub == rows[i].userId && next.family == next.token.family == rows[i].family
    requires forall k | 0 <= k < |rows| :: rows[k].token.jti != next.token.jti
    ensures MayAppend(RevokeAt(rows, i), next, cfg)
  {
    LiveIsNewest(rows, i, clock, cfg);
    var rotated := RevokeAt(rows, i);
    assert rotated[i].family == next.family;
  }

  /** The only row of a family that can be live is its newest. */
  lemma LiveIsNewest(rows: seq<Row>, i: nat, clock: int, cfg: Config)
    requires ChainsOk(rows, clock, cfg) && i < |rows| && !rows[i].isRevoked
    ensures forall k | i < k < |rows| :: rows[k].family != rows[i].family
    ensures forall k | 0 <= k < |rows| && k != i && rows[k].family == rows[i].family ::
              k < i && rows[k].isRevoked && rows[k].userId == rows[i].userId
  {
    forall k | 0 <= k < |rows| && k != i && rows[k].family == rows[i].family
      ensures k < i && rows[k].isRevoked && rows[k].userId == rows[i].userId
    {
      assert !SameChain(rows, i, k);
      assert SameChain(rows, k, i);
    }
  }

  lemma StepKeepsChains(db: Db, cfg: Config, e: Event)
    requires ChainsOk(db.tokens, db.clock, cfg) && Enabled(db, e)
    ensures ChainsOk(Apply(db, cfg, e).tokens, Apply(db, cfg, e).clock, cfg)
  {
    if e.SignIn? {
      SignInKeepsChains(db, cfg, e);
    } else if e.Refresh? {
      RefreshKeepsChains(db, cfg, e);
    } else {
      OthersOnlyRevoke(db, cfg, e);
      RevokingKeepsChains(db.tokens, Apply(db, cfg, e).tokens, db.clock, Now(db, e), cfg);
    }
  }

  lemma OthersOnlyRevoke(db: Db, cfg: Config, e: Event)
    requires !e.SignIn? && !e.Refresh?
    ensures MoreRevoked(db.tokens, Handle(db, cfg, e).0.tokens)
  {}

  lemma StepKeepsGrants(db: Db, cfg: Config, e: Event)
    requires GrantsOk(db.grants, db.clock) && Enabled(db, e)
    ensures GrantsOk(Apply(db, cfg, e).grants, Apply(db, cfg, e).clock)
  {
    if e.RequestReset? {
      RequestKeepsGrants(db, cfg, e);
    } else {
      OthersOnlyUse(db, cfg, e);
      UsingKeepsGrants(db.grants, Apply(db, cfg, e).grants, db.clock, Now(db, e));
    }
  }

  lemma OthersOnlyUse(db: Db, cfg: Config, e: Event)
    requires !e.RequestReset?
    ensures MoreUsed(db.grants, Handle(db, cfg, e).0.grants)
  {}

  lemma RequestKeepsGrants(db: Db, cfg: Config, e: Event)
    requires GrantsOk(db.grants, db.clock) && e.RequestReset? && Enabled(db, e)
    ensures GrantsOk(Apply(db, cfg, e).grants, e.now)
  {
    var used := UseGrants(db.grants, e.user, e.now);
    UsingKeepsGrants(db.grants, db.grants, db.clock, e.now);
    UsingKeepsGrants(db.grants, used, db.clock, e.now);
  }

  /** Session versions never go back, and a new access token carries its user's current one. */
  lemma StepKeepsIssued(db: Db, cfg: Config, e: Event)
    requires IssuedOk(db)
    ensures IssuedOk(Apply(db, cfg, e))
  {}

  lemma {:induction false} RunKeepsInv(db: Db, cfg: Config, events: seq<Event>)
    requires Inv(db, cfg)
    ensures Inv(Run(db, cfg, events), cfg)
    decreases |events|
  {
    if events != [] {
      if Enabled(db, events[0]) {
        StepKeepsChains(db, cfg, events[0]);
        StepKeepsGrants(db, cfg, events[0]);
        StepKeepsIssued(db, cfg, events[0]);
        RunKeepsInv(Apply(db, cfg, events[0]), cfg, events[1..]);
      } else {
        RunKeepsInv(db, cfg, events[1..]);
      }
    }
  }

  // ---------------------------------------------------------------- rotation and reuse

  /** Any accounts, before the first session. */
  function Start(users: map<UserId, User>, clock: int): Db { Db(users, [], [], [], clock) }

  /** In every run a family has at most one unrevoked token, its newest. */
  lemma OneLiveTokenPerFamily(users: map<UserId, User>, clock: int, cfg: Config, events: seq<Event>)
    ensures var rows := Run(Start(users, clock), cfg, events).tokens;
            && (forall i, j | SameChain(rows, i, j) :: rows[i].isRevoked)
            && (cfg.idleTimeoutMinutes > 0 ==>
                  forall i, j | Successor(rows, i, j) ::
                    0 <= rows[j].createdAt - rows[i].createdAt <= cfg.idleTimeoutMinutes * 60_000)
  {
    RunKeepsInv(Start(users, clock), cfg, events);
    var rows := Run(Start(users, clock), cfg, events).tokens;
    forall i, j | Successor(rows, i, j) ensures 0 <= rows[j].createdAt - rows[i].createdAt {
      assert SameChain(rows, i, j);
    }
  }

  /** Replaying a token that has been rotated away is refused and kills every token of its chain. */
  lemma ReplayKillsChain(db: Db, cfg: Config, token: RefreshToken, now: int, jti: nat, i: nat, j: nat)
    requires Inv(db, cfg) && SameChain(db.tokens, i, j) && db.tokens[i].token == token
    ensures var (db', outcome) := OnRefresh(db, cfg, token, true, now, jti);
            && outcome == Refused && |db'.tokens| == |db.tokens|
            && (forall k | 0 <= k < |db'.tokens| && db'.tokens[k].family == token.family :: db'.tokens[k].isRevoked)
            && (forall k | 0 <= k < |db'.tokens| && db'.tokens[k].family != token.family :: db'.tokens[k] == db.tokens[k])
  {
    assert FindRow(db.tokens, token) == Some(i);
  }

  /** A refresh succeeds exactly for a live, unexpired, not idle token of an account that is not barred. */
  lemma RefreshSucceedsExactly(db: Db, cfg: Config, token: RefreshToken, jwtValid: bool, now: int, jti: nat)
    requires Inv(db, cfg)
    ensures OnRefresh(db, cfg, token, jwtValid, now, jti).1.SignedIn? <==>
              && jwtValid && token.sub in db.users && !db.users[token.sub].deleted && !Barred(db.users[token.sub])
              && exists i | 0 <= i < |db.tokens| ::
                   && db.tokens[i].token == token && !db.tokens[i].isRevoked && now <= db.tokens[i].expiresAt
                   && !IdleExpired(db.tokens[i].createdAt, now, cfg.idleTimeoutMinutes)
  {
    if i: nat :| i < |db.tokens| && db.tokens[i].token == token {
      assert FindRow(db.tokens, token) == Some(i);
    }
  }

  // ---------------------------------------------------------------- what is dead stays dead

  predicate DeadFamily(rows: seq<Row>, family: nat) {
    && (exists i | 0 <= i < |rows| :: rows[i].family == family)
    && (forall i | 0 <= i < |rows| && rows[i].family == family :: rows[i].isRevoked)
  }

  /** Rows are only added or revoked. */
  predicate Evolves(rows: seq<Row>, rows': seq<Row>) {
    |rows| <= |rows'| && MoreRevoked(rows, rows'[..|rows|])
  }

  lemma StepEvolves(db: Db, cfg: Config, e: Event)
    ensures Evolves(db.tokens, Apply(db, cfg, e).tokens)
  {
    if e.SignIn? || e.Refresh? {} else { OthersOnlyRevoke(db, cfg, e); }
  }

  lemma StepKeepsDead(db: Db, cfg: Config, e: Event, family: nat)
    requires Inv(db, cfg) && Enabled(db, e) && DeadFamily(db.tokens, family)
    ensures DeadFamily(Apply(db, cfg, e).tokens, family)
  {
    var rows, rows' := db.tokens, Apply(db, cfg, e).tokens;
    StepEvolves(db, cfg, e);
    var i :| 0 <= i < |rows| && rows[i].family == family;
    assert rows'[..|rows|][i] == rows'[i] && rows'[i].family == family;
    forall k | 0 <= k < |rows'| && rows'[k].family == family ensures rows'[k].isRevoked {
      if k < |rows| { assert rows'[..|rows|][k] == rows'[k]; }
    }
  }

  lemma {:induction false} DeadFamilyStaysDead(db: Db, cfg: Config, events: seq<Event>, family: nat)
    requires Inv(db, cfg) && DeadFamily(db.tokens, family)
    ensures DeadFamily(Run(db, cfg, events).tokens, family)
    decreases |events|
  {
    if events != [] {
      if Enabled(db, events[0]) {
        StepKeepsDead(db, cfg, events[0], family);
        RunKeepsInv(db, cfg, events[..1]);
        assert Run(db, cfg, events[..1]) == Apply(db, cfg, events[0]);
        DeadFamilyStaysDead(Apply(db, cfg, events[0]), cfg, events[1..], family);
      } else {
        DeadFamilyStaysDead(db, cfg, events[1..], family);
      }
    }
  }

  // ---------------------------------------------------------------- a password change ends every session

  /** The authentication middleware's check of an access token against the user row. */
  predicate Accepted(db: Db, a: AccessToken) {
    a.sub in db.users && !db.users[a.sub].deleted && !Barred(db.users[a.sub])
    && a.sessionVersion == db.users[a.sub].sessionVersion
  }

  /** How often the event raises the user's session version. */
  function Raises(db: Db, cfg: Config, e: Event, user: UserId): nat {
    if Handle(db, cfg, e).1 == PasswordChanged(user) || (e == BumpSession(user) && user in db.users) then 1 else 0
  }

  function RaisesIn(db: Db, cfg: Config, events: seq<Event>, user: UserId): nat
    decreases |events|
  {
    if events == [] then 0
    else if Enabled(db, events[0])
    then Raises(db, cfg, events[0], user) + RaisesIn(Apply(db, cfg, events[0]), cfg, events[1..], user)
    else RaisesIn(db, cfg, events[1..], user)
  }

  lemma StepCountsVersion(db: Db, cfg: Config, e: Event, user: UserId)
    requires user in db.users
    ensures user in Apply(db, cfg, e).users
    ensures Apply(db, cfg, e).users[user].sessionVersion == db.users[user].sessionVersion + Raises(db, cfg, e, user)
  {}

  /** The session version counts the password changes and authority changes of the user, and nothing else. */
  lemma {:induction false} SessionVersionCounts(db: Db, cfg: Config, events: seq<Event>, user: UserId)
    requires user in db.users
    ensures var db' := Run(db, cfg, events);
            && user in db'.users
            && db'.users[user].sessionVersion == db.users[user].sessionVersion + RaisesIn(db, cfg, events, user)
    decreases |events|
  {
    if events != [] {
      if Enabled(db, events[0]) {
        StepCountsVersion(db, cfg, events[0], user);
        SessionVersionCounts(Apply(db, cfg, events[0]), cfg, events[1..], user);
      } else {
        SessionVersionCounts(db, cfg, events[1..], user);
      }
    }
  }

  lemma {:induction false} RunEvolves(db: Db, cfg: Config, events: seq<Event>)
    ensures Evolves(db.tokens, Run(db, cfg, events).tokens)
    decreases |events|
  {
    if events != [] {
      if Enabled(db, events[0]) {
        StepEvolves(db, cfg, events[0]);
        RunEvolves(Apply(db, cfg, events[0]), cfg, events[1..]);
      } else {
        RunEvolves(db, cfg, events[1..]);
      }
    }
  }

  lemma ChangeRevokes(db: Db, cfg: Config, e: Event, user: UserId)
    requires Handle(db, cfg, e).1 == PasswordChanged(user)
    ensures user in db.users && Apply(db, cfg, e).tokens == RevokeUser(db.tokens, user)
    ensures Raises(db, cfg, e, user) == 1
  {}

  /**
   * After a successful password change or reset, whatever happens next, no refresh token of the user
   * issued before it is live, no token of a family that existed then is live, and no access token
   * issued before it is accepted.
   */
  lemma PasswordChangeEndsSessions(db: Db, cfg: Config, e: Event, user: UserId, events: seq<Event>)
    requires Inv(db, cfg) && Enabled(db, e) && Handle(db, cfg, e).1 == PasswordChanged(user)
    ensures var db' := Run(Apply(db, cfg, e), cfg, events);
            && |db.tokens| <= |db'.tokens|
            && (forall i | 0 <= i < |db.tokens| && db.tokens[i].userId == user :: db'.tokens[i].isRevoked)
            && (forall i, j | 0 <= i < |db.tokens| && db.tokens[i].userId == user
                              && 0 <= j < |db'.tokens| && db'.tokens[j].family == db.tokens[i].family ::
                  db'.tokens[j].isRevoked)
            && (forall a | a in db.issued && a.sub == user :: !Accepted(db', a))
  {
    var db1 := Apply(db, cfg, e);
    var db' := Run(db1, cfg, events);
    ChangeRevokes(db, cfg, e, user);
    RunEvolves(db1, cfg, events);
    RunKeepsInv(db, cfg, [e]);
    assert Run(db, cfg, [e]) == db1;
    forall i | 0 <= i < |db.tokens| && db.tokens[i].userId == user
      ensures DeadFamily(db'.tokens, db.tokens[i].family)
      ensures db'.tokens[i].isRevoked
    {
      FamilyOfUserDies(db, cfg, user, i);
      DeadFamilyStaysDead(db1, cfg, events, db.tokens[i].family);
      assert db'.tokens[..|db1.tokens|][i] == db'.tokens[i];
    }
    StepCountsVersion(db, cfg, e, user);
    SessionVersionCounts(db1, cfg, events, user);
  }

  lemma FamilyOfUserDies(db: Db, cfg: Config, user: UserId, i: nat)
    requires Inv(db, cfg) && i < |db.tokens| && db.tokens[i].userId == user
    ensures DeadFamily(RevokeUser(db.tokens, user), db.tokens[i].family)
  {
    var rows, rows' := db.tokens, RevokeUser(db.tokens, user);
    assert rows'[i].family == rows[i].family;
    forall k | 0 <= k < |rows'| && rows'[k].family == rows[i].family ensures rows'[k].isRevoked {
      assert SameChain(rows, i, k) || SameChain(rows, k, i) || i == k;
    }
  }

  // ---------------------------------------------------------------- reset grants

  /** In every run a user has at most one unused grant, and grants of one user are over a minute apart. */
  lemma OneUnusedGrant(users: map<UserId, User>, clock: int, cfg: Config, events: seq<Event>)
    ensures var grants := Run(Start(users, clock), cfg, events).grants;
            forall i, j | 0 <= i < j < |grants| && grants[i].userId == grants[j].userId ::
              grants[i].usedAt.Some? && grants[j].createdAt - grants[i].createdAt > 60_000
  {
    RunKeepsInv(Start(users, clock), cfg, events);
  }

  /** Password changes that a grant has paid for. */
  function ResetsBy(db: Db, cfg: Config, events: seq<Event>, tokenHash: nat): nat
    decreases |events|
  {
    if events == [] then 0
    else if Enabled(db, events[0])
    then (if events[0].ResetPassword? && events[0].tokenHash == tokenHash && Handle(db, cfg, events[0]).1.PasswordChanged?
          then 1 else 0)
         + ResetsBy(Apply(db, cfg, events[0]), cfg, events[1..], tokenHash)
    else ResetsBy(db, cfg, events[1..], tokenHash)
  }

  predicate Spent(grants: seq<Grant>, tokenHash: nat) {
    exists i | 0 <= i < |grants| :: grants[i].tokenHash == tokenHash && grants[i].usedAt.Some?
  }

  lemma StepSpends(db: Db, cfg: Config, e: Event, tokenHash: nat)
    requires Inv(db, cfg) && Enabled(db, e)
    ensures Spent(db.grants, tokenHash) ==> Spent(Apply(db, cfg, e).grants, tokenHash)
    ensures e.ResetPassword? && e.tokenHash == tokenHash && Handle(db, cfg, e).1.PasswordChanged? ==>
              !Spent(db.grants, tokenHash) && Spent(Apply(db, cfg, e).grants, tokenHash)
  {
    var grants' := Apply(db, cfg, e).grants;
    if !e.RequestReset? { OthersOnlyUse(db, cfg, e); }
    if i :| 0 <= i < |db.grants| && db.grants[i].tokenHash == tokenHash && db.grants[i].usedAt.Some? {
      assert grants'[i].tokenHash == tokenHash && grants'[i].usedAt.Some?;
    }
    if e.ResetPassword? {
      var g := FindGrant(db.grants, e.tokenHash, e.now);
      if g.Some? && Handle(db, cfg, e).1.PasswordChanged? {
        assert grants'[g.value].tokenHash == e.tokenHash && grants'[g.value].usedAt.Some?;
      }
    }
  }

  /** Whatever the run, one grant changes a password at most once, and a spent grant never. */
  lemma {:induction false} GrantChangesPasswordOnce(db: Db, cfg: Config, events: seq<Event>, tokenHash: nat)
    requires Inv(db, cfg)
    ensures ResetsBy(db, cfg, events, tokenHash) <= if Spent(db.grants, tokenHash) then 0 else 1
    decreases |events|
  {
    if events != [] {
      if Enabled(db, events[0]) {
        StepSpends(db, cfg, events[0], tokenHash);
        RunKeepsInv(db, cfg, events[..1]);
        assert Run(db, cfg, events[..1]) == Apply(db, cfg, events[0]);
        GrantChangesPasswordOnce(Apply(db, cfg, events[0]), cfg, events[1..], tokenHash);
      } else {
        GrantChangesPasswordOnce(db, cfg, events[1..], tokenHash);
      }
    }
  }

  /** The transaction claims the grant before it looks at the account, so a barred account burns it. */
  lemma ConsumeClaimsFirst(db: Db, tokenHash: nat, now: int, newHash: nat)
    requires GrantsOk(db.grants, db.clock)
    ensures var (db', user) := ConsumeGrant(db, tokenHash, now, newHash);
            && (forall i | 0 <= i < |db.grants| && Usable(db.grants[i], tokenHash, now) :: db'.grants[i].usedAt == Some(now))
            && (user.Some? <==> exists i | 0 <= i < |db.grants| ::
                  && Usable(db.grants[i], tokenHash, now) && var u := db.grants[i].userId;
                  u in db.users && !db.users[u].deleted && !Barred(db.users[u]))
            && (user.None? ==> db'.users == db.users && db'.tokens == db.tokens)
            && (user.Some? ==> user.value in db.users && db'.users[user.value].passwordHash == newHash
                               && db'.tokens == RevokeUser(db.tokens, user.value)
                               && forall i | 0 <= i < |db'.grants| && db'.grants[i].userId == user.value ::
                                    db'.grants[i].usedAt.Some?)
  {
    var g := FindGrant(db.grants, tokenHash, now);
    if i :| 0 <= i < |db.grants| && Usable(db.grants[i], tokenHash, now) {
      assert g == Some(i);
    }
  }

  // ---------------------------------------------------------------- the service

  /** The tables behind the authentication service, and its methods as they step through them. */
  class AuthService {
    const cfg: Config
    var users: map<UserId, User>
    var tokens: seq<Row>
    var grants: seq<Grant>
    var issued: seq<AccessToken>
    var clock: int

    ghost function Model(): Db
      reads this
    {
      Db(users, tokens, grants, issued, clock)
    }

    constructor (cfg: Config, users: map<UserId, User>, clock: int)
      ensures Model() == Start(users, clock) && this.cfg == cfg
    {
      this.cfg := cfg;
      this.users, this.clock := users, clock;
      tokens, grants, issued := [], [], [];
    }

    method GenerateTokenPair(user: UserId, now: int, family: nat, jti: nat) returns (outcome: Outcome)
      requires user in users
      modifies this`tokens, this`issued
      ensures (Model(), outcome) == GenerateTokens(old(Model()), cfg, user, now, family, jti)
    {
      var access := AccessToken(user, users[user].sessionVersion);
      var refresh := RefreshToken(user, family, jti);
      tokens := tokens + [Row(refresh, user, family, false, now, now + cfg.refreshLifetimeMs)];
      issued := issued + [access];
      outcome := SignedIn(refresh, access);
    }

    method LoginTail(user: UserId, now: int, family: nat, jti: nat) returns (outcome: Outcome)
      modifies this
      ensures (Model(), outcome) == OnSignIn(old(Model()), cfg, user, now, family, jti)
    {
      if user !in users || users[user].deleted || Barred(users[user]) { return Refused; }
      users := users[user := users[user].(status := ACTIVE)];
      outcome := GenerateTokenPair(user, now, family, jti);
    }

    method RefreshTokens(token: RefreshToken, jwtValid: bool, now: int, jti: nat) returns (outcome: Outcome)
      modifies this
      ensures (Model(), outcome) == OnRefresh(old(Model()), cfg, token, jwtValid, now, jti)
    {
      if !jwtValid { return Refused; }
      var stored := FindRow(tokens, token);
      if stored.None? { return Refused; }
      var row := tokens[stored.value];
      if row.isRevoked {
        tokens := RevokeFamily(tokens, row.family);
        return Refused;
      }
      if row.expiresAt < now {
        tokens := RevokeAt(tokens, stored.value);
        return Refused;
      }
      if IdleExpired(row.createdAt, now, cfg.idleTimeoutMinutes) {
        tokens := RevokeFamily(tokens, row.family);
        return Refused;
      }
      tokens := RevokeAt(tokens, stored.value);
      if token.sub !in users || users[token.sub].deleted || Barred(users[token.sub]) { return Refused; }
      outcome := GenerateTokenPair(token.sub, now, token.family, jti);
    }

    method LogoutSession(token: RefreshToken)
      modifies this`tokens
      ensures Model() == OnLogout(old(Model()), token).0
    {
      var stored := FindRow(tokens, token);
      if stored.Some? { tokens := RevokeFamily(tokens, tokens[stored.value].family); }
    }

    method ChangeUserPassword(user: UserId, policyOk: bool, currentMatches: bool, sameAsCurrent: bool, newHash: nat)
      returns (outcome: Outcome)
      modifies this
      ensures (Model(), outcome) == OnChangePassword(old(Model()), user, policyOk, currentMatches, sameAsCurrent, newHash)
    {
      if !policyOk || user !in users || !currentMatches || sameAsCurrent { return Refused; }
      var u := users[user];
      users := users[user := u.(passwordHash := newHash, sessionVersion := u.sessionVersion + 1)];
      tokens := RevokeUser(tokens, user);
      outcome := PasswordChanged(user);
    }

    method RequestPasswordReset(user: UserId, now: int, tokenHash: nat, delivered: bool)
      modifies this`grants
      ensures Model() == OnRequestReset(old(Model()), cfg, user, now, tokenHash, delivered).0
    {
      if user !in users || users[user].deleted || Barred(users[user]) || Throttled(grants, user, now) { return; }
      grants := UseGrants(grants, user, now);
      grants := grants + [Grant(user, tokenHash, now, now + cfg.resetTtlMs, None)];
      if !delivered {
        var last := |grants| - 1;
        grants := grants[last := grants[last].(usedAt := Some(now))];
      }
    }

    method ConsumePasswordResetToken(tokenHash: nat, now: int, newHash: nat) returns (user: Option<UserId>)
      modifies this
      ensures (Model(), user) == ConsumeGrant(old(Model()), tokenHash, now, newHash)
    {
      var found := FindGrant(grants, tokenHash, now);
      if found.None? { return None; }
      var owner := grants[found.value].userId;
      grants := grants[found.value := grants[found.value].(usedAt := Some(now))];
      if owner !in users || users[owner].deleted || Barred(users[owner]) { return None; }
      var u := users[owner];
      users := users[owner := u.(passwordHash := newHash, sessionVersion := u.sessionVersion + 1, status := ACTIVE)];
      assert users == old(users)[owner := u.(status := ACTIVE)][owner := users[owner]];
      tokens := RevokeUser(tokens, owner);
      grants := UseGrants(grants, owner, now);
      user := Some(owner);
    }

    method ResetUserPassword(tokenHash: nat, now: int, policyOk: bool, sameAsCurrent: bool, newHash: nat)
      returns (outcome: Outcome)
      modifies this
      ensures (Model(), outcome) == OnResetPassword(old(Model()), tokenHash, now, policyOk, sameAsCurrent, newHash)
    {
      if !policyOk { return Refused; }
      var found := FindGrant(grants, tokenHash, now);
      if found.None? { return Refused; }
      var owner := grants[found.value].userId;
      if owner !in users || users[owner].deleted || Barred(users[owner]) || sameAsCurrent { return Refused; }
      var user := ConsumePasswordResetToken(tokenHash, now, newHash);
      outcome := if user.None? then Refused else PasswordChanged(user.value);
    }
  }
}
