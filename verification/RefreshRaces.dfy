/**
 * Refresh-token families, one database query per step: any number of refresh, logout, login and
 * revocation requests interleave. A request that has passed the reuse check carries on with what it
 * read, however the rows have changed since.
 */
module RefreshRaces {
  import opened Wrappers
  import opened Sessions

  type ThreadId = nat

  /** What a request will do with its next query. */
  datatype Thread =
    | Verified(token: RefreshToken)                // look the token up
    | RevokingFamily(family: nat)                  // reuse, idleness or logout
    | RevokingExpired(row: nat)
    | Passed(token: RefreshToken, row: nat)        // revoke the presented token
    | Rotated(token: RefreshToken)                 // look the user up
    | Cleared(token: RefreshToken)                 // insert the successor
    | LoggingOut(token: RefreshToken)              // look the token up
    | Finished

  datatype State = State(rows: seq<Row>, threads: map<ThreadId, Thread>)

  datatype Query =
    | BeginRefresh(t: ThreadId, token: RefreshToken)
    | BeginLogout(t: ThreadId, token: RefreshToken)
    | FindToken(t: ThreadId, now: int)
    | Revoke(t: ThreadId)
    | FindUser(t: ThreadId, admitted: bool)
    | Insert(t: ThreadId, jti: nat, now: int)
    | InsertLogin(user: UserId, family: nat, jti: nat, now: int)
    | RevokeAllOf(user: UserId)
    | RevokeOne(row: nat)

  predicate Enabled(s: State, q: Query) {
    match q
    case BeginRefresh(t, _) => t !in s.threads
    case BeginLogout(t, _) => t !in s.threads
    case FindToken(t, _) => t in s.threads && (s.threads[t].Verified? || s.threads[t].LoggingOut?)
    case Revoke(t) =>
      t in s.threads && (s.threads[t].RevokingFamily? || s.threads[t].RevokingExpired? || s.threads[t].Passed?)
      && (!s.threads[t].RevokingFamily? ==> s.threads[t].row < |s.rows|)
    case FindUser(t, _) => t in s.threads && s.threads[t].Rotated?
    case Insert(t, jti, _) =>
      t in s.threads && s.threads[t].Cleared? && (forall i | 0 <= i < |s.rows| :: s.rows[i].token.jti != jti)
    case InsertLogin(_, family, _, _) =>
      && (forall i | 0 <= i < |s.rows| :: s.rows[i].family != family)
      && (forall t | t in s.threads :: Outstanding(s.threads[t]) ==> s.threads[t].token.family != family)
    case RevokeAllOf(_) => true
    case RevokeOne(row) => row < |s.rows|
  }

  /** A refresh that has passed the check and has not inserted its successor. */
  predicate Outstanding(t: Thread) {
    t.Passed? || t.Rotated? || t.Cleared?
  }

  function AfterFind(rows: seq<Row>, cfg: Config, thread: Thread, now: int): Thread
    requires thread.Verified? || thread.LoggingOut?
  {
    match FindRow(rows, thread.token)
    case None => Finished
    case Some(i) =>
      if thread.LoggingOut? || rows[i].isRevoked then RevokingFamily(rows[i].family)
      else if rows[i].expiresAt < now then RevokingExpired(i)
      else if IdleExpired(rows[i].createdAt, now, cfg.idleTimeoutMinutes) then RevokingFamily(rows[i].family)
      else Passed(thread.token, i)
  }

  function Apply(s: State, cfg: Config, q: Query): State
    requires Enabled(s, q)
  {
    match q
    case BeginRefresh(t, token) => s.(threads := s.threads[t := Verified(token)])
    case BeginLogout(t, token) => s.(threads := s.threads[t := LoggingOut(token)])
    case FindToken(t, now) => s.(threads := s.threads[t := AfterFind(s.rows, cfg, s.threads[t], now)])
    case Revoke(t) =>
      (match s.threads[t]
       case RevokingFamily(family) => State(RevokeFamily(s.rows, family), s.threads[t := Finished])
       case Passed(token, row) => State(RevokeAt(s.rows, row), s.threads[t := Rotated(token)])
       case th => State(RevokeAt(s.rows, th.row), s.threads[t := Finished]))
    case FindUser(t, admitted) =>
      s.(threads := s.threads[t := if admitted then Cleared(s.threads[t].token) else Finished])
    case Insert(t, jti, now) =>
      var token := s.threads[t].token;
      State(s.rows + [NewRow(cfg, token.sub, token.family, jti, now)], s.threads[t := Finished])
    case InsertLogin(user, family, jti, now) => s.(rows := s.rows + [NewRow(cfg, user, family, jti, now)])
    case RevokeAllOf(user) => s.(rows := RevokeUser(s.rows, user))
    case RevokeOne(row) => s.(rows := RevokeAt(s.rows, row))
  }

  function NewRow(cfg: Config, user: UserId, family: nat, jti: nat, now: int): Row {
    Row(RefreshToken(user, family, jti), user, family, false, now, now + cfg.refreshLifetimeMs)
  }

  function Step(s: State, cfg: Config, q: Query): State {
    if Enabled(s, q) then Apply(s, cfg, q) else s
  }

  function Run(s: State, cfg: Config, queries: seq<Query>): State
    decreases |queries|
  {
    if queries == [] then s else Run(Step(s, cfg, queries[0]), cfg, queries[1..])
  }

  // ---------------------------------------------------------------- dead families

  /** The stored columns repeat the claims of the token they were stored for. */
  ghost predicate ColumnsOk(s: State) {
    && (forall i | 0 <= i < |s.rows| :: s.rows[i].userId == s.rows[i].token.sub && s.rows[i].family == s.rows[i].token.family)
    && (forall t | t in s.threads && (s.threads[t].Passed? || s.threads[t].RevokingExpired?) :: s.threads[t].row < |s.rows|)
  }

  predicate Issued(s: State, family: nat) {
    exists i | 0 <= i < |s.rows| :: s.rows[i].family == family
  }

  predicate AllRevoked(s: State, family: nat) {
    forall i | 0 <= i < |s.rows| && s.rows[i].family == family :: s.rows[i].isRevoked
  }

  predicate NoneOutstanding(s: State, family: nat) {
    forall t | t in s.threads && Outstanding(s.threads[t]) :: s.threads[t].token.family != family
  }

  lemma StepKeepsColumns(s: State, cfg: Config, q: Query)
    requires ColumnsOk(s) && Enabled(s, q)
    ensures ColumnsOk(Apply(s, cfg, q))
  {}

  lemma StepKeepsDeath(s: State, cfg: Config, q: Query, family: nat)
    requires ColumnsOk(s) && Enabled(s, q)
    requires Issued(s, family) && AllRevoked(s, family) && NoneOutstanding(s, family)
    ensures var s' := Apply(s, cfg, q);
            Issued(s', family) && AllRevoked(s', family) && NoneOutstanding(s', family)
  {
    var s' := Apply(s, cfg, q);
    var i :| 0 <= i < |s.rows| && s.rows[i].family == family;
    assert s'.rows[i].family == family;
  }

  lemma {:induction false} RunKeepsDeath(s: State, cfg: Config, queries: seq<Query>, family: nat)
    requires ColumnsOk(s) && Issued(s, family) && AllRevoked(s, family) && NoneOutstanding(s, family)
    ensures AllRevoked(Run(s, cfg, queries), family)
    decreases |queries|
  {
    if queries != [] {
      if Enabled(s, queries[0]) {
        StepKeepsColumns(s, cfg, queries[0]);
        StepKeepsDeath(s, cfg, queries[0], family);
        RunKeepsDeath(Apply(s, cfg, queries[0]), cfg, queries[1..], family);
      } else {
        RunKeepsDeath(s, cfg, queries[1..], family);
      }
    }
  }

  function FreshJti(rows: seq<Row>): (jti: nat)
    ensures forall i | 0 <= i < |rows| :: rows[i].token.jti < jti
  {
    if rows == [] then 0
    else
      var rest := FreshJti(rows[..|rows| - 1]);
      var last := rows[|rows| - 1].token.jti;
      if last < rest then rest else last + 1
  }

  /** The queries an outstanding refresh has left. */
  function Finishing(s: State, t: ThreadId): (queries: seq<Query>)
    requires t in s.threads && Outstanding(s.threads[t])
    ensures forall q | q in queries :: !q.FindToken?
  {
    var insert := Insert(t, FreshJti(s.rows), 0);
    match s.threads[t]
    case Passed(_, _) => [Revoke(t), FindUser(t, true), insert]
    case Rotated(_) => [FindUser(t, true), insert]
    case _ => [insert]
  }

  function AfterFinishing(s: State, cfg: Config, t: ThreadId): State
    requires ColumnsOk(s) && t in s.threads && Outstanding(s.threads[t])
  {
    var th := s.threads[t];
    var rows := if th.Passed? then RevokeAt(s.rows, th.row) else s.rows;
    State(rows + [NewRow(cfg, th.token.sub, th.token.family, FreshJti(s.rows), 0)], s.threads[t := Finished])
  }

  lemma FinishingRun(s: State, cfg: Config, t: ThreadId)
    requires ColumnsOk(s) && t in s.threads && Outstanding(s.threads[t])
    ensures Run(s, cfg, Finishing(s, t)) == AfterFinishing(s, cfg, t)
  {
    var qs := Finishing(s, t);
    match s.threads[t]
    case Cleared(_) =>
      RunOfOne(s, cfg, qs[0]);
    case Rotated(_) =>
      assert qs[1..] == [qs[1]];
      RunOfOne(Step(s, cfg, qs[0]), cfg, qs[1]);
    case Passed(_, _) =>
      assert qs[1..] == [qs[1], qs[2]] && qs[1..][1..] == [qs[2]];
      var s1 := Step(s, cfg, qs[0]);
      RunOfOne(Step(s1, cfg, qs[1]), cfg, qs[2]);
  }

  lemma RunOfOne(s: State, cfg: Config, q: Query)
    ensures Run(s, cfg, [q]) == Step(s, cfg, q)
  {
    assert [q][1..] == [];
  }

  /** A refresh that has passed the check can still bring its family back. */
  lemma OutstandingRevives(s: State, cfg: Config, family: nat, t: ThreadId) returns (queries: seq<Query>)
    requires ColumnsOk(s) && t in s.threads && Outstanding(s.threads[t]) && s.threads[t].token.family == family
    ensures !AllRevoked(Run(s, cfg, queries), family)
  {
    queries := Finishing(s, t);
    FinishingRun(s, cfg, t);
    assert AfterFinishing(s, cfg, t).rows[|s.rows|].family == family;
  }

  /**
   * At single-query granularity an issued family never becomes live again, under any interleaving,
   * exactly when all its tokens are revoked and no refresh of it that passed the check is outstanding.
   */
  lemma NeverLiveAgainExactly(s: State, cfg: Config, family: nat)
    requires ColumnsOk(s) && Issued(s, family)
    ensures (forall queries :: AllRevoked(Run(s, cfg, queries), family))
            <==> AllRevoked(s, family) && NoneOutstanding(s, family)
  {
    if AllRevoked(s, family) && NoneOutstanding(s, family) {
      forall queries ensures AllRevoked(Run(s, cfg, queries), family) { RunKeepsDeath(s, cfg, queries, family); }
    } else if !AllRevoked(s, family) {
      assert Run(s, cfg, []) == s;
    } else {
      var t :| t in s.threads && Outstanding(s.threads[t]) && s.threads[t].token.family == family;
      var queries := OutstandingRevives(s, cfg, family, t);
    }
  }

  // ---------------------------------------------------------------- the two granularities

  /** The queries of one refresh; those its answers make superfluous are not enabled and do nothing. */
  function Script(t: ThreadId, token: RefreshToken, now: int, admitted: bool, jti: nat): seq<Query> {
    [BeginRefresh(t, token), FindToken(t, now), Revoke(t), FindUser(t, admitted), Insert(t, jti, now)]
  }

  /** A refresh whose queries nobody interrupts does what the one-step refresh does. */
  lemma UninterruptedRefresh(db: Db, cfg: Config, s: State, t: ThreadId, token: RefreshToken, now: int, jti: nat)
    requires s.rows == db.tokens && t !in s.threads
    requires forall i | 0 <= i < |s.rows| :: s.rows[i].token.jti != jti
    ensures var admitted := token.sub in db.users && !db.users[token.sub].deleted && !Barred(db.users[token.sub]);
            Run(s, cfg, Script(t, token, now, admitted, jti)).rows
              == OnRefresh(db, cfg, token, true, now, jti).0.tokens
  {
    var admitted := token.sub in db.users && !db.users[token.sub].deleted && !Barred(db.users[token.sub]);
    var qs := Script(t, token, now, admitted, jti);
    RunOfFive(s, cfg, qs[0], qs[1], qs[2], qs[3], qs[4]);
    var s1 := Step(s, cfg, qs[0]);
    var s2 := Step(s1, cfg, qs[1]);
    assert s2 == s.(threads := s.threads[t := AfterFind(s.rows, cfg, Verified(token), now)]);
    AfterTheCheck(s2, cfg, t, now, admitted, jti);
    RequestByCheck(db, cfg, token, now, jti);
  }

  /** The one-step refresh, by what its check finds. */
  lemma RequestByCheck(db: Db, cfg: Config, token: RefreshToken, now: int, jti: nat)
    ensures var admitted := token.sub in db.users && !db.users[token.sub].deleted && !Barred(db.users[token.sub]);
            var rows' := OnRefresh(db, cfg, token, true, now, jti).0.tokens;
            match AfterFind(db.tokens, cfg, Verified(token), now)
            case RevokingFamily(family) => rows' == RevokeFamily(db.tokens, family)
            case RevokingExpired(row) => row < |db.tokens| && rows' == RevokeAt(db.tokens, row)
            case Passed(presented, row) =>
              presented == token && row < |db.tokens|
              && rows' == RevokeAt(db.tokens, row) + if admitted then [NewRow(cfg, token.sub, token.family, jti, now)] else []
            case _ => rows' == db.tokens
  {}

  lemma RunOfFive(s: State, cfg: Config, a: Query, b: Query, c: Query, d: Query, e: Query)
    ensures Run(s, cfg, [a, b, c, d, e]) == Step(Step(Step(Step(Step(s, cfg, a), cfg, b), cfg, c), cfg, d), cfg, e)
  {
    assert [a, b, c, d, e][1..] == [b, c, d, e] && [b, c, d, e][1..] == [c, d, e];
    assert [c, d, e][1..] == [d, e] && [d, e][1..] == [e] && [e][1..] == [];
    var s2 := Step(Step(s, cfg, a), cfg, b);
    assert Run(s, cfg, [a, b, c, d, e]) == Run(s2, cfg, [c, d, e]);
    assert Run(s2, cfg, [c, d, e]) == Run(Step(Step(s2, cfg, c), cfg, d), cfg, [e]);
  }

  /** What the last three queries of a script do, by what the check found. */
  lemma AfterTheCheck(s: State, cfg: Config, t: ThreadId, now: int, admitted: bool, jti: nat)
    requires t in s.threads && forall i | 0 <= i < |s.rows| :: s.rows[i].token.jti != jti
    requires var th := s.threads[t];
             th.Finished? || th.RevokingFamily? || ((th.RevokingExpired? || th.Passed?) && th.row < |s.rows|)
    ensures var rows' := Step(Step(Step(s, cfg, Revoke(t)), cfg, FindUser(t, admitted)), cfg, Insert(t, jti, now)).rows;
            match s.threads[t]
            case RevokingFamily(family) => rows' == RevokeFamily(s.rows, family)
            case RevokingExpired(row) => rows' == RevokeAt(s.rows, row)
            case Passed(token, row) =>
              rows' == RevokeAt(s.rows, row) + if admitted then [NewRow(cfg, token.sub, token.family, jti, now)] else []
            case _ => rows' == s.rows
  {}

  /** A logout nobody interrupts revokes what the one-step logout revokes. */
  lemma UninterruptedLogout(db: Db, cfg: Config, s: State, t: ThreadId, token: RefreshToken, now: int)
    requires s.rows == db.tokens && t !in s.threads
    ensures Run(s, cfg, [BeginLogout(t, token), FindToken(t, now), Revoke(t)]).rows == OnLogout(db, token).0.tokens
  {
    var begin, find, revoke := BeginLogout(t, token), FindToken(t, now), Revoke(t);
    assert [begin, find, revoke][1..] == [find, revoke] && [find, revoke][1..] == [revoke];
    var s1 := Step(s, cfg, begin);
    var s2 := Step(s1, cfg, find);
    RunOfOne(s2, cfg, revoke);
    assert Run(s1, cfg, [find, revoke]) == Run(s2, cfg, [revoke]);
    assert Run(s, cfg, [begin, find, revoke]) == Run(s1, cfg, [find, revoke]);
  }

  /** The requests of a single query do to the rows what their one-step forms do. */
  lemma SingleQueries(db: Db, cfg: Config, s: State, user: UserId, family: nat, jti: nat, now: int, i: nat, newHash: nat)
    requires s.rows == db.tokens
    ensures Enabled(s, InsertLogin(user, family, jti, now)) && OnSignIn(db, cfg, user, now, family, jti).1.SignedIn? ==>
              Apply(s, cfg, InsertLogin(user, family, jti, now)).rows == OnSignIn(db, cfg, user, now, family, jti).0.tokens
    ensures user in db.users ==>
              Apply(s, cfg, RevokeAllOf(user)).rows == OnChangePassword(db, user, true, true, false, newHash).0.tokens
    ensures i < |s.rows| && FindRow(s.rows, s.rows[i].token) == Some(i) ==>
              Apply(s, cfg, RevokeOne(i)).rows == OnRevokeSession(db, s.rows[i].token, s.rows[i].userId).0.tokens
  {}

  // ---------------------------------------------------------------- one live token a family

  predicate Live(rows: seq<Row>, i: int, family: nat) {
    0 <= i < |rows| && rows[i].family == family && !rows[i].isRevoked
  }

  predicate Holds(s: State, t: ThreadId, family: nat) {
    t in s.threads && Outstanding(s.threads[t]) && s.threads[t].token.family == family
  }

  ghost predicate OneLive(rows: seq<Row>) {
    forall family, i, j :: Live(rows, i, family) && Live(rows, j, family) ==> i == j
  }

  /** A family has one claimant: its live token, with the refresh that is about to revoke it, or a refresh alone. */
  ghost predicate OneClaim(s: State) {
    && OneLive(s.rows)
    && (forall family, t, u :: Holds(s, t, family) && Holds(s, u, family) ==> t == u)
    && (forall family, i, t :: Live(s.rows, i, family) && Holds(s, t, family) ==> s.threads[t].Passed? && s.threads[t].row == i)
  }

  /** A refresh passes the check while another one of the family is outstanding. */
  ghost predicate Overtakes(s: State, cfg: Config, q: Query) {
    q.FindToken? && Enabled(s, q) && AfterFind(s.rows, cfg, s.threads[q.t], q.now).Passed?
    && exists u :: Holds(s, u, s.threads[q.t].token.family)
  }

  /** One query leaves every family with one claimant exactly when it does not overtake. */
  lemma StepKeepsOneClaimExactly(s: State, cfg: Config, q: Query)
    requires ColumnsOk(s) && OneClaim(s)
    ensures OneClaim(Step(s, cfg, q)) <==> !Overtakes(s, cfg, q)
  {
    if Enabled(s, q) {
      if Overtakes(s, cfg, q) {
        var family := s.threads[q.t].token.family;
        var u :| Holds(s, u, family);
        assert Holds(Apply(s, cfg, q), u, family) && Holds(Apply(s, cfg, q), q.t, family);
      } else {
        match q
        case FindToken(t, now) => CheckKeepsOneClaim(s, cfg, q);
        case Insert(t, jti, now) => InsertKeepsOneClaim(s, cfg, q);
        case InsertLogin(user, family, jti, now) => LoginKeepsOneClaim(s, cfg, q);
        case _ => RestKeepsOneClaim(s, cfg, q);
      }
    }
  }

  lemma CheckKeepsOneClaim(s: State, cfg: Config, q: Query)
    requires ColumnsOk(s) && OneClaim(s) && q.FindToken? && Enabled(s, q) && !Overtakes(s, cfg, q)
    ensures OneClaim(Apply(s, cfg, q))
  {
    var s', th := Apply(s, cfg, q), s.threads[q.t];
    forall t, family | Holds(s', t, family) ensures if t == q.t then family == th.token.family else Holds(s, t, family) {}
    match AfterFind(s.rows, cfg, th, q.now)
    case Passed(_, row) =>
      assert Live(s.rows, row, th.token.family);
      forall u ensures !Holds(s, u, th.token.family) {}
    case _ =>
  }

  lemma InsertKeepsOneClaim(s: State, cfg: Config, q: Query)
    requires OneClaim(s) && q.Insert? && Enabled(s, q)
    ensures OneClaim(Apply(s, cfg, q))
  {
    var s' := Apply(s, cfg, q);
    var own := s.threads[q.t].token.family;
    assert Holds(s, q.t, own);
    assert forall i :: !Live(s.rows, i, own);
    assert forall t :: Holds(s, t, own) ==> t == q.t;
    forall i, family | Live(s'.rows, i, family)
      ensures if i == |s.rows| then family == own else Live(s.rows, i, family) && family != own
    {
      assert !Live(s.rows, i, own);
    }
    forall t, family | Holds(s', t, family) ensures Holds(s, t, family) && t != q.t {
      assert s'.threads[q.t] == Finished;
    }
  }

  lemma LoginKeepsOneClaim(s: State, cfg: Config, q: Query)
    requires OneClaim(s) && q.InsertLogin? && Enabled(s, q)
    ensures OneClaim(Apply(s, cfg, q))
  {
    var s' := Apply(s, cfg, q);
    assert forall i :: !Live(s.rows, i, q.family);
    assert forall t :: !Holds(s, t, q.family);
    forall i, family | Live(s'.rows, i, family)
      ensures if i == |s.rows| then family == q.family else Live(s.rows, i, family) && family != q.family {}
    forall t, family | Holds(s', t, family) ensures Holds(s, t, family) && family != q.family {}
  }

  /** The other queries only revoke rows, and a refresh gives its row up as it is revoked. */
  lemma RestKeepsOneClaim(s: State, cfg: Config, q: Query)
    requires ColumnsOk(s) && OneClaim(s) && Enabled(s, q) && !q.FindToken? && !q.Insert? && !q.InsertLogin?
    ensures OneClaim(Apply(s, cfg, q))
  {
    var s' := Apply(s, cfg, q);
    forall i, family | Live(s'.rows, i, family) ensures Live(s.rows, i, family) {}
    forall t, family | Holds(s', t, family) ensures Holds(s, t, family) {}
  }

  ghost predicate NeverOvertakes(s: State, cfg: Config, queries: seq<Query>)
    decreases |queries|
  {
    queries != [] ==> !Overtakes(s, cfg, queries[0]) && NeverOvertakes(Step(s, cfg, queries[0]), cfg, queries[1..])
  }

  /** One claimant a family in every state of the run. */
  ghost predicate AlwaysOneClaim(s: State, cfg: Config, queries: seq<Query>)
    decreases |queries|
  {
    OneClaim(s) && (queries != [] ==> AlwaysOneClaim(Step(s, cfg, queries[0]), cfg, queries[1..]))
  }

  /** A run has one claimant a family throughout exactly when none of its checks overtakes. */
  lemma {:induction false} RunKeepsOneClaimExactly(s: State, cfg: Config, queries: seq<Query>)
    requires ColumnsOk(s) && OneClaim(s)
    ensures AlwaysOneClaim(s, cfg, queries) <==> NeverOvertakes(s, cfg, queries)
    ensures NeverOvertakes(s, cfg, queries) ==> OneClaim(Run(s, cfg, queries))
    decreases |queries|
  {
    if queries != [] {
      StepKeepsOneClaimExactly(s, cfg, queries[0]);
      var s' := Step(s, cfg, queries[0]);
      if OneClaim(s') {
        if Enabled(s, queries[0]) { StepKeepsColumns(s, cfg, queries[0]); }
        RunKeepsOneClaimExactly(s', cfg, queries[1..]);
      }
    }
  }

  /**
   * One claimant a family is exactly what keeps one live token a family: with it, no run that does not
   * overtake leaves two, and without it some run that makes no check at all does.
   */
  lemma OneClaimExactly(s: State, cfg: Config)
    requires ColumnsOk(s)
    ensures OneClaim(s) <==> forall queries :: NeverOvertakes(s, cfg, queries) ==> OneLive(Run(s, cfg, queries).rows)
  {
    if OneClaim(s) {
      forall queries | NeverOvertakes(s, cfg, queries) ensures OneLive(Run(s, cfg, queries).rows) {
        RunKeepsOneClaimExactly(s, cfg, queries);
      }
    } else {
      var queries := SecondClaimDoubles(s, cfg);
    }
  }

  /** Two claimants of a family that are let finish leave two live tokens in it. */
  lemma SecondClaimDoubles(s: State, cfg: Config) returns (queries: seq<Query>)
    requires ColumnsOk(s) && !OneClaim(s)
    ensures NeverOvertakes(s, cfg, queries) && !OneLive(Run(s, cfg, queries).rows)
  {
    if !OneLive(s.rows) {
      queries := [];
    } else if family, t, u :| Holds(s, t, family) && Holds(s, u, family) && t != u {
      queries := TwoRefreshesDouble(s, cfg, family, t, u);
    } else {
      var family, i, t :| Live(s.rows, i, family) && Holds(s, t, family) && !(s.threads[t].Passed? && s.threads[t].row == i);
      queries := Finishing(s, t);
      LiveTokenAndRefreshDouble(s, cfg, family, i, t);
      NoCheckNoOvertaking(s, cfg, queries);
    }
  }

  lemma LiveTokenAndRefreshDouble(s: State, cfg: Config, family: nat, i: int, t: ThreadId)
    requires ColumnsOk(s) && Live(s.rows, i, family) && Holds(s, t, family)
    requires s.threads[t].Passed? ==> s.threads[t].row != i
    ensures !OneLive(Run(s, cfg, Finishing(s, t)).rows)
  {
    FinishingRun(s, cfg, t);
    var rows := AfterFinishing(s, cfg, t).rows;
    assert Live(rows, i, family) && Live(rows, |s.rows|, family);
  }

  lemma TwoRefreshesDouble(s: State, cfg: Config, family: nat, t: ThreadId, u: ThreadId) returns (queries: seq<Query>)
    requires ColumnsOk(s) && Holds(s, t, family) && Holds(s, u, family) && t != u
    ensures NeverOvertakes(s, cfg, queries) && !OneLive(Run(s, cfg, queries).rows)
  {
    var s1 := AfterFinishing(s, cfg, t);
    FinishingRun(s, cfg, t);
    FinishingAddsALiveToken(s, cfg, family, t);
    LiveTokenAndRefreshDouble(s1, cfg, family, |s.rows|, u);
    queries := Finishing(s, t) + Finishing(s1, u);
    RunConcat(s, cfg, Finishing(s, t), Finishing(s1, u));
    NoCheckNoOvertaking(s, cfg, queries);
  }

  lemma FinishingAddsALiveToken(s: State, cfg: Config, family: nat, t: ThreadId)
    requires ColumnsOk(s) && Holds(s, t, family)
    ensures var s1 := AfterFinishing(s, cfg, t);
            ColumnsOk(s1) && Live(s1.rows, |s.rows|, family) && s1.threads == s.threads[t := Finished]
  {}

  lemma {:induction false} NoCheckNoOvertaking(s: State, cfg: Config, queries: seq<Query>)
    requires forall q | q in queries :: !q.FindToken?
    ensures NeverOvertakes(s, cfg, queries)
    decreases |queries|
  {
    if queries != [] {
      NoCheckNoOvertaking(Step(s, cfg, queries[0]), cfg, queries[1..]);
    }
  }

  /** A check that overtakes opens the way to two live tokens of the family, with no further check. */
  lemma OvertakingDoubles(s: State, cfg: Config, q: Query) returns (queries: seq<Query>)
    requires ColumnsOk(s) && OneClaim(s) && Overtakes(s, cfg, q)
    ensures NeverOvertakes(Apply(s, cfg, q), cfg, queries) && !OneLive(Run(Apply(s, cfg, q), cfg, queries).rows)
  {
    StepKeepsOneClaimExactly(s, cfg, q);
    StepKeepsColumns(s, cfg, q);
    queries := SecondClaimDoubles(Apply(s, cfg, q), cfg);
  }

  /** Two refreshes of any token that would pass the check leave two live tokens of its family when they overlap. */
  lemma OverlapLeavesTwoLiveTokens(s: State, cfg: Config, token: RefreshToken, now: int, t: ThreadId, u: ThreadId)
    returns (queries: seq<Query>)
    requires ColumnsOk(s) && t != u && t !in s.threads && u !in s.threads
    requires AfterFind(s.rows, cfg, Verified(token), now).Passed?
    ensures !OneLive(Run(s, cfg, queries).rows)
  {
    var check := [BeginRefresh(t, token), BeginRefresh(u, token), FindToken(t, now), FindToken(u, now)];
    RunOfFour(s, cfg, check[0], check[1], check[2], check[3]);
    var s1 := Run(s, cfg, check);
    var passed := AfterFind(s.rows, cfg, Verified(token), now);
    assert s1 == s.(threads := s.threads[t := passed][u := passed]);
    var act := TwoRefreshesDouble(s1, cfg, token.family, t, u);
    queries := check + act;
    RunConcat(s, cfg, check, act);
  }

  lemma RunOfFour(s: State, cfg: Config, a: Query, b: Query, c: Query, d: Query)
    ensures Run(s, cfg, [a, b, c, d]) == Step(Step(Step(Step(s, cfg, a), cfg, b), cfg, c), cfg, d)
  {
    assert [a, b, c, d][1..] == [b, c, d] && [b, c, d][1..] == [c, d];
    assert [c, d][1..] == [d];
    var s2 := Step(Step(s, cfg, a), cfg, b);
    assert Run(s, cfg, [a, b, c, d]) == Run(s2, cfg, [c, d]);
    assert Run(s2, cfg, [c, d]) == Run(Step(s2, cfg, c), cfg, [d]);
    RunOfOne(Step(s2, cfg, c), cfg, d);
  }

  lemma {:induction false} RunConcat(s: State, cfg: Config, a: seq<Query>, b: seq<Query>)
    ensures Run(s, cfg, a + b) == Run(Run(s, cfg, a), cfg, b)
    decreases |a|
  {
    if a == [] {
      assert a + b == b;
    } else {
      assert (a + b)[1..] == a[1..] + b;
      RunConcat(Step(s, cfg, a[0]), cfg, a[1..], b);
    }
  }
}
