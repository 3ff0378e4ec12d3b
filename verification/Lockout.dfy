/**
 * Brute-force protection of one account: failure rows, the sliding lockout window, the lock, and the
 * one-time recovery codes. One login request is one step; `now` is the request's clock.
 */
module Lockout {
  import opened Wrappers

  datatype Status = ACTIVE | INACTIVE | SUSPENDED | LOCKED

  datatype Account = Account(status: Status, lockedUntil: Option<int>, failedAttempts: nat, attempts: seq<int>)

  /** `maxLoginAttempts` and `lockoutDurationMinutes` in milliseconds. */
  datatype Config = Config(max: int, window: int)

  datatype Mfa = NotEnabled | Missing | Accepted | Rejected

  datatype Outcome = Success | Forbidden | TooManyRequests | InvalidCredentials | MfaRequired

  datatype Event =
    | Login(now: int, passwordOk: bool, mfa: Mfa)
    | SsoLogin(now: int)
    | PasswordReset(now: int)

  /** `loginAttempt.count({ attemptedAt: { gte: since } })`. */
  function CountSince(attempts: seq<int>, since: int): nat {
    if attempts == [] then 0
    else CountSince(attempts[..|attempts| - 1], since) + if attempts[|attempts| - 1] >= since then 1 else 0
  }

  predicate LockInForce(a: Account, now: int) {
    a.lockedUntil.Some? && a.lockedUntil.value > now
  }

  function Lock(a: Account, cfg: Config, now: int): Account {
    a.(status := LOCKED, lockedUntil := Some(now + cfg.window))
  }

  function LogFailure(a: Account, now: int): Account {
    a.(attempts := a.attempts + [now])
  }

  function Recent(a: Account, cfg: Config, now: int): nat {
    CountSince(a.attempts, now - cfg.window)
  }

  function FailAttempt(a: Account, cfg: Config, now: int): Account {
    var counted := a.(failedAttempts := a.failedAttempts + 1);
    LogFailure(if Recent(a, cfg, now) >= cfg.max then Lock(counted, cfg, now) else counted, now)
  }

  /** `updateUserLoginSuccess`. */
  function Restore(a: Account): Account {
    Account(ACTIVE, None, 0, [])
  }

  function OnLogin(a: Account, cfg: Config, now: int, passwordOk: bool, mfa: Mfa): (Account, Outcome) {
    if a.status == INACTIVE || a.status == SUSPENDED then (a, Forbidden)
    else if a.status == LOCKED && LockInForce(a, now) then (a, TooManyRequests)
    else if LockInForce(a, now) then (LogFailure(a, now), TooManyRequests)
    else if !passwordOk then (FailAttempt(a, cfg, now), InvalidCredentials)
    else if mfa.Missing? then (a, MfaRequired)
    else if mfa.Rejected? then (FailAttempt(a, cfg, now), InvalidCredentials)
    else if Recent(a, cfg, now) >= cfg.max then (LogFailure(Lock(a, cfg, now), now), TooManyRequests)
    else (Restore(a), Success)
  }

  function OnSsoLogin(a: Account, now: int): (Account, Outcome) {
    if a.status == INACTIVE || a.status == SUSPENDED then (a, Forbidden)
    else if a.status == LOCKED && LockInForce(a, now) then (a, TooManyRequests)
    else if LockInForce(a, now) then (LogFailure(a, now), TooManyRequests)
    else (Restore(a), Success)
  }

  function Handle(a: Account, cfg: Config, e: Event): (Account, Outcome) {
    match e
    case Login(now, passwordOk, mfa) => OnLogin(a, cfg, now, passwordOk, mfa)
    case SsoLogin(now) => OnSsoLogin(a, now)
    case PasswordReset(_) =>
      if a.status == INACTIVE || a.status == SUSPENDED then (a, Forbidden) else (Restore(a), Success)
  }

  function Clock(clock: int, events: seq<Event>): int {
    if events == [] then clock else events[|events| - 1].now
  }

  /** A run in which every request is later than the one before. */
  predicate Timed(clock: int, events: seq<Event>) {
    events == [] || var front := events[..|events| - 1];
                    Timed(clock, front) && events[|events| - 1].now > Clock(clock, front)
  }

  function Run(a: Account, cfg: Config, events: seq<Event>): Account {
    if events == [] then a else Handle(Run(a, cfg, events[..|events| - 1]), cfg, events[|events| - 1]).0
  }

  // ---------------------------------------------------------------- the invariant

  predicate Increasing(s: seq<int>) {
    forall i, j | 0 <= i < j < |s| :: s[i] < s[j]
  }

  /** Any `max + 2` consecutive failures take longer than the window. */
  predicate Spread(attempts: seq<int>, cfg: Config)
    requires cfg.max >= 1
  {
    forall i | 0 <= i < |attempts| - cfg.max - 1 :: attempts[i + cfg.max + 1] > attempts[i] + cfg.window
  }

  predicate Inv(a: Account, cfg: Config, clock: int)
    requires cfg.max >= 1
  {
    var n := |a.attempts|;
    && Increasing(a.attempts) && (n > 0 ==> a.attempts[n - 1] <= clock)
    && Spread(a.attempts, cfg)
    && (a.status == LOCKED <==> a.lockedUntil.Some?)
    // a full window ends with the failure that locked the account
    && (n > cfg.max && a.attempts[n - 1] <= a.attempts[n - 1 - cfg.max] + cfg.window ==>
          a.lockedUntil == Some(a.attempts[n - 1] + cfg.window))
  }

  /** At least `k` failures since `since` means the `k`-th last one is. */
  lemma {:induction false} CountMeans(attempts: seq<int>, since: int, k: nat)
    requires Increasing(attempts)
    ensures CountSince(attempts, since) <= |attempts|
    ensures k >= 1 ==> (CountSince(attempts, since) >= k <==> k <= |attempts| && attempts[|attempts| - k] >= since)
  {
    if attempts != [] {
      var front := attempts[..|attempts| - 1];
      CountMeans(front, since, if k > 1 then k - 1 else 0);
      if attempts[|attempts| - 1] < since { NoneSince(attempts, since); }
    }
  }

  lemma {:induction false} NoneSince(attempts: seq<int>, since: int)
    requires forall i | 0 <= i < |attempts| :: attempts[i] < since
    ensures CountSince(attempts, since) == 0
  {
    if attempts != [] { NoneSince(attempts[..|attempts| - 1], since); }
  }

  /** What one more failure row does to an open account. */
  predicate Fails(a: Account, a': Account, cfg: Config, now: int) {
    && a'.attempts == a.attempts + [now]
    && (if Recent(a, cfg, now) >= cfg.max then a'.status == LOCKED && a'.lockedUntil == Some(now + cfg.window)
        else a'.status == a.status && a'.lockedUntil == a.lockedUntil)
  }

  lemma FailureStaysIncreasing(attempts: seq<int>, clock: int, now: int)
    requires Increasing(attempts) && (|attempts| > 0 ==> attempts[|attempts| - 1] <= clock) && clock < now
    ensures Increasing(attempts + [now])
  {}

  lemma FailureStaysSpread(a: Account, cfg: Config, clock: int, now: int)
    requires cfg.max >= 1 && Inv(a, cfg, clock) && clock < now && !LockInForce(a, now)
    ensures Spread(a.attempts + [now], cfg)
  {
    var n, more := |a.attempts|, a.attempts + [now];
    forall i | 0 <= i < |more| - cfg.max - 1 ensures more[i + cfg.max + 1] > more[i] + cfg.window {
      if i + cfg.max + 1 < n {
        assert a.attempts[i + cfg.max + 1] > a.attempts[i] + cfg.window;
      } else {
        assert more[i] == a.attempts[n - 1 - cfg.max] && more[i + cfg.max + 1] == now;
      }
    }
  }

  /** A failure that fills the window locks the account. */
  lemma FullWindowLocks(a: Account, a': Account, cfg: Config, now: int)
    requires cfg.max >= 1 && Increasing(a.attempts) && Fails(a, a', cfg, now)
    ensures |a.attempts| >= cfg.max && now <= a'.attempts[|a.attempts| - cfg.max] + cfg.window ==>
              a'.lockedUntil == Some(now + cfg.window)
  {
    CountMeans(a.attempts, now - cfg.window, cfg.max);
  }

  lemma FailureKeepsInv(a: Account, a': Account, cfg: Config, clock: int, now: int)
    requires cfg.max >= 1 && Inv(a, cfg, clock) && clock < now && !LockInForce(a, now) && Fails(a, a', cfg, now)
    ensures Inv(a', cfg, now)
  {
    FailureStaysIncreasing(a.attempts, clock, now);
    FailureStaysSpread(a, cfg, clock, now);
    FullWindowLocks(a, a', cfg, now);
  }

  /** Every answer leaves the account as it was, restores it, or adds one failure to an open account. */
  lemma StepEffect(a: Account, cfg: Config, e: Event)
    requires a.status == LOCKED <==> a.lockedUntil.Some?
    ensures var (a', outcome) := Handle(a, cfg, e);
            && (outcome == Success ==> a' == Restore(a))
            && (outcome == InvalidCredentials ==> !LockInForce(a, e.now) && Fails(a, a', cfg, e.now))
            && (outcome == TooManyRequests ==> a' == a || (!LockInForce(a, e.now) && Fails(a, a', cfg, e.now)))
            && (outcome == Forbidden || outcome == MfaRequired ==> a' == a)
  {}

  lemma StepKeepsInv(a: Account, cfg: Config, clock: int, e: Event)
    requires cfg.max >= 1 && Inv(a, cfg, clock) && clock < e.now
    ensures Inv(Handle(a, cfg, e).0, cfg, e.now)
  {
    StepEffect(a, cfg, e);
    var a' := Handle(a, cfg, e).0;
    if |a'.attempts| == |a.attempts| + 1 { FailureKeepsInv(a, a', cfg, clock, e.now); }
  }

  lemma {:induction false} RunKeepsInv(a: Account, cfg: Config, clock: int, events: seq<Event>)
    requires cfg.max >= 1 && Inv(a, cfg, clock) && Timed(clock, events)
    ensures Inv(Run(a, cfg, events), cfg, Clock(clock, events))
  {
    if events != [] {
      var front := events[..|events| - 1];
      RunKeepsInv(a, cfg, clock, front);
      StepKeepsInv(Run(a, cfg, front), cfg, Clock(clock, front), events[|events| - 1]);
    }
  }

  // ---------------------------------------------------------------- what the window guarantees

  const FreshAccount := Account(ACTIVE, None, 0, [])

  /**
   * A password login succeeds exactly for an open account, right credentials, and fewer than `max` recent
   * failures; with `max` zero or less it never does.
   */
  lemma LoginSucceedsExactly(a: Account, cfg: Config, now: int, passwordOk: bool, mfa: Mfa)
    requires Increasing(a.attempts) && (a.status == LOCKED <==> a.lockedUntil.Some?)
    ensures OnLogin(a, cfg, now, passwordOk, mfa).1.Success? <==>
              && (a.status == ACTIVE || (a.status == LOCKED && a.lockedUntil.value <= now))
              && passwordOk && (mfa.NotEnabled? || mfa.Accepted?)
              && cfg.max >= 1
              && (cfg.max <= |a.attempts| ==> a.attempts[|a.attempts| - cfg.max] < now - cfg.window)
  {
    if cfg.max >= 1 { CountMeans(a.attempts, now - cfg.window, cfg.max); }
  }

  /** A lock that has not lapsed, whatever the status says: administrators can set the status alone. */
  predicate Shut(a: Account, now: int) {
    a.lockedUntil.Some? && now < a.lockedUntil.value
  }

  predicate MayTry(a: Account, now: int) {
    (a.status == ACTIVE || a.status == LOCKED) && !Shut(a, now)
  }

  /** As many failures as the settings allow lie in the trailing window. */
  predicate WindowIsFull(a: Account, cfg: Config, now: int) {
    cfg.max <= 0 || (cfg.max <= |a.attempts| && a.attempts[|a.attempts| - cfg.max] >= now - cfg.window)
  }

  /** What each password login is told, and what a refusal leaves. */
  lemma LoginOutcomesExactly(a: Account, cfg: Config, now: int, passwordOk: bool, mfa: Mfa)
    requires Increasing(a.attempts)
    ensures var (a', outcome) := OnLogin(a, cfg, now, passwordOk, mfa);
            var full, barred := WindowIsFull(a, cfg, now), a.status == INACTIVE || a.status == SUSPENDED;
            var right := passwordOk && (mfa.NotEnabled? || mfa.Accepted?);
            && (outcome == Success <==> MayTry(a, now) && right && !full)
            && (outcome == Forbidden <==> barred)
            && (outcome == InvalidCredentials <==> MayTry(a, now) && (!passwordOk || mfa.Rejected?))
            && (outcome == MfaRequired <==> MayTry(a, now) && passwordOk && mfa.Missing?)
            && (outcome == TooManyRequests <==> (!barred && Shut(a, now)) || (MayTry(a, now) && right && full))
            && (outcome == Success ==> a' == Account(ACTIVE, None, 0, []))
            && (outcome == Forbidden || outcome == MfaRequired ==> a' == a)
            && (!MayTry(a, now) && !barred ==> a' == if a.status == LOCKED then a else a.(attempts := a.attempts + [now]))
            && (outcome == InvalidCredentials || (outcome == TooManyRequests && MayTry(a, now)) ==>
                  && a'.attempts == a.attempts + [now]
                  && a'.failedAttempts == a.failedAttempts + (if outcome == InvalidCredentials then 1 else 0)
                  && a'.status == (if full then LOCKED else a.status)
                  && a'.lockedUntil == (if full then Some(now + cfg.window) else a.lockedUntil))
  {
    if cfg.max >= 1 { CountMeans(a.attempts, now - cfg.window, cfg.max); }
  }

  /** A login by a verified identity passes the same gate: only an active account, or one whose lock has lapsed. */
  lemma VerifiedLoginExactly(a: Account, now: int)
    ensures var (a', outcome) := OnSsoLogin(a, now);
            var barred := a.status == INACTIVE || a.status == SUSPENDED;
            && (outcome == Success <==> MayTry(a, now))
            && (outcome == Forbidden <==> barred)
            && (outcome == TooManyRequests <==> !barred && Shut(a, now))
            && (outcome == Success ==> a' == Account(ACTIVE, None, 0, []))
            && (outcome == Forbidden ==> a' == a)
            && (outcome == TooManyRequests ==> a' == if a.status == LOCKED then a else a.(attempts := a.attempts + [now]))
  {}

  /** A password reset lifts a lock and forgets the failures, but opens no account that was shut out. */
  lemma ResetLiftsTheLock(a: Account, cfg: Config, now: int)
    ensures Handle(a, cfg, PasswordReset(now))
         == if a.status == ACTIVE || a.status == LOCKED then (Account(ACTIVE, None, 0, []), Success) else (a, Forbidden)
  {}

  /** When an account is locked: by any guess or right login that meets a full window, and by nothing else. */
  lemma LocksExactly(a: Account, cfg: Config, e: Event)
    requires Increasing(a.attempts) && a.lockedUntil != Some(e.now + cfg.window)
    ensures Locks(a, cfg, e) <==> e.Login? && MayTry(a, e.now) && WindowIsFull(a, cfg, e.now) && !(e.passwordOk && e.mfa.Missing?)
  {
    if e.Login? { LoginOutcomesExactly(a, cfg, e.now, e.passwordOk, e.mfa); }
  }

  /** A deactivated or suspended account lets nobody in by any way, and no attempt changes it. */
  lemma {:induction false} ShutOutStaysOut(a: Account, cfg: Config, events: seq<Event>)
    requires a.status == INACTIVE || a.status == SUSPENDED
    ensures Run(a, cfg, events) == a
    ensures forall i | 0 <= i < |events| :: Handle(Run(a, cfg, events[..i]), cfg, events[i]) == (a, Forbidden)
  {
    if events != [] {
      var front := events[..|events| - 1];
      ShutOutStaysOut(a, cfg, front);
      forall i | 0 <= i < |events| ensures Handle(Run(a, cfg, events[..i]), cfg, events[i]) == (a, Forbidden) {
        if i < |front| { assert front[..i] == events[..i]; }
      }
    }
  }

  /** The counter of failed attempts counts the wrong guesses since the last success. */
  lemma {:induction false} CounterCountsGuesses(a: Account, cfg: Config, events: seq<Event>)
    requires (a.status == LOCKED <==> a.lockedUntil.Some?) && NoSuccess(a, cfg, events)
    ensures var a' := Run(a, cfg, events);
            && (a'.status == LOCKED <==> a'.lockedUntil.Some?)
            && a'.failedAttempts == a.failedAttempts + |GuessTimes(a, cfg, events)|
  {
    if events != [] { CounterCountsGuesses(a, cfg, events[..|events| - 1]); }
  }

  function InWindow(attempts: seq<int>, t: int, window: int): seq<int> {
    if attempts == [] then []
    else
      var last := attempts[|attempts| - 1];
      InWindow(attempts[..|attempts| - 1], t, window) + if t - window <= last <= t then [last] else []
  }

  /** Up to the last failure, a window holds the failures since its start. */
  lemma {:induction false} WindowIsCount(attempts: seq<int>, t: int, window: int)
    requires Increasing(attempts) && (attempts != [] ==> attempts[|attempts| - 1] <= t)
    ensures |InWindow(attempts, t, window)| == CountSince(attempts, t - window)
  {
    if attempts != [] { WindowIsCount(attempts[..|attempts| - 1], t, window); }
  }

  /** No window of the lockout's length ever holds more than `max + 1` failures. */
  lemma {:induction false} WindowHoldsAtMost(attempts: seq<int>, cfg: Config, t: int)
    requires cfg.max >= 1 && Increasing(attempts) && Spread(attempts, cfg)
    ensures |InWindow(attempts, t, cfg.window)| <= cfg.max + 1
  {
    if attempts != [] && attempts[|attempts| - 1] > t {
      WindowHoldsAtMost(attempts[..|attempts| - 1], cfg, t);
    } else {
      WindowIsCount(attempts, t, cfg.window);
      CountMeans(attempts, t - cfg.window, cfg.max + 2);
    }
  }

  /** When each wrong password or wrong second factor of the run was tried. */
  function GuessTimes(a: Account, cfg: Config, events: seq<Event>): seq<int> {
    if events == [] then []
    else
      var front, last := events[..|events| - 1], events[|events| - 1];
      GuessTimes(a, cfg, front)
      + if Handle(Run(a, cfg, front), cfg, last).1 == InvalidCredentials then [last.now] else []
  }

  predicate NoSuccess(a: Account, cfg: Config, events: seq<Event>) {
    events == [] || var front := events[..|events| - 1];
                    NoSuccess(a, cfg, front) && Handle(Run(a, cfg, front), cfg, events[|events| - 1]).1 != Success
  }

  lemma {:induction false} EveryGuessLeavesARow(a: Account, cfg: Config, clock: int, events: seq<Event>, t: int)
    requires cfg.max >= 1 && Inv(a, cfg, clock) && Timed(clock, events) && NoSuccess(a, cfg, events)
    ensures |InWindow(GuessTimes(a, cfg, events), t, cfg.window)| <= |InWindow(Run(a, cfg, events).attempts, t, cfg.window)|
  {
    if events != [] {
      var front, last := events[..|events| - 1], events[|events| - 1];
      var b := Run(a, cfg, front);
      EveryGuessLeavesARow(a, cfg, clock, front, t);
      RunKeepsInv(a, cfg, clock, front);
      GuessLeavesARow(b, cfg, last);
      AppendToWindow(b.attempts, last.now, t, cfg.window);
      AppendToWindow(GuessTimes(a, cfg, front), last.now, t, cfg.window);
      assert GuessTimes(a, cfg, front) + [] == GuessTimes(a, cfg, front);
    }
  }

  lemma GuessLeavesARow(a: Account, cfg: Config, e: Event)
    requires (a.status == LOCKED <==> a.lockedUntil.Some?) && Handle(a, cfg, e).1 != Success
    ensures var (a', outcome) := Handle(a, cfg, e);
            a'.attempts == a.attempts + [e.now] || (a'.attempts == a.attempts && outcome != InvalidCredentials)
  {
    StepEffect(a, cfg, e);
  }

  lemma AppendToWindow(attempts: seq<int>, now: int, t: int, window: int)
    ensures InWindow(attempts + [now], t, window)
            == InWindow(attempts, t, window) + if t - window <= now <= t then [now] else []
  {
    assert (attempts + [now])[..|attempts|] == attempts;
  }

  /**
   * Brute force is bounded: in every run without a successful login, any window of the lockout's
   * length sees at most `max + 1` wrong guesses, wherever the window lies.
   */
  lemma GuessesAreBounded(a: Account, cfg: Config, clock: int, events: seq<Event>, t: int)
    requires cfg.max >= 1 && Inv(a, cfg, clock) && Timed(clock, events) && NoSuccess(a, cfg, events)
    ensures |InWindow(GuessTimes(a, cfg, events), t, cfg.window)| <= cfg.max + 1
  {
    RunKeepsInv(a, cfg, clock, events);
    WindowHoldsAtMost(Run(a, cfg, events).attempts, cfg, t);
    EveryGuessLeavesARow(a, cfg, clock, events, t);
  }

  /** Wrong guesses at 1, 2, ..., n, and their instants. */
  function Guesses(n: nat): seq<Event> {
    seq(n, i requires 0 <= i < n => Login(i + 1, false, NotEnabled))
  }

  function Instants(n: nat): seq<int> {
    seq(n, i requires 0 <= i < n => i + 1)
  }

  lemma {:induction false} AllSince(attempts: seq<int>, since: int)
    requires forall i | 0 <= i < |attempts| :: attempts[i] >= since
    ensures CountSince(attempts, since) == |attempts|
  {
    if attempts != [] { AllSince(attempts[..|attempts| - 1], since); }
  }

  /** What one more wrong guess adds to a run without a success. */
  lemma OneMoreEvent(a: Account, cfg: Config, clock: int, events: seq<Event>, e: Event)
    ensures var more := events + [e];
            && Run(a, cfg, more) == Handle(Run(a, cfg, events), cfg, e).0
            && GuessTimes(a, cfg, more) == GuessTimes(a, cfg, events)
                 + (if Handle(Run(a, cfg, events), cfg, e).1 == InvalidCredentials then [e.now] else [])
            && (Timed(clock, more) <==> Timed(clock, events) && e.now > Clock(clock, events))
            && (NoSuccess(a, cfg, more) <==> NoSuccess(a, cfg, events) && Handle(Run(a, cfg, events), cfg, e).1 != Success)
            && Clock(clock, more) == e.now
  {
    assert (events + [e])[..|events|] == events;
  }

  lemma OneMoreGuess(n: nat)
    ensures Guesses(n + 1) == Guesses(n) + [Login(n + 1, false, NotEnabled)]
    ensures Instants(n + 1) == Instants(n) + [n + 1]
  {}

  lemma NextGuessIsCompared(cfg: Config, k: nat)
    requires k <= cfg.max <= cfg.window
    ensures var (a, outcome) := Handle(Account(ACTIVE, None, k, Instants(k)), cfg, Login(k + 1, false, NotEnabled));
            outcome == InvalidCredentials && (k < cfg.max ==> a == Account(ACTIVE, None, k + 1, Instants(k + 1)))
  {
    AllSince(Instants(k), k + 1 - cfg.window);
    OneMoreGuess(k);
  }

  /** The run ends at `n` with as many guesses compared, and no success. */
  ghost predicate ComparesAll(cfg: Config, events: seq<Event>, n: nat) {
    && Run(FreshAccount, cfg, events) == Account(ACTIVE, None, n, Instants(n))
    && GuessTimes(FreshAccount, cfg, events) == Instants(n)
    && Timed(0, events) && NoSuccess(FreshAccount, cfg, events) && Clock(0, events) == n
  }

  lemma OneMoreIsCompared(cfg: Config, events: seq<Event>, n: nat)
    requires n < cfg.max <= cfg.window && ComparesAll(cfg, events, n)
    ensures ComparesAll(cfg, events + [Login(n + 1, false, NotEnabled)], n + 1)
  {
    OneMoreGuess(n);
    NextGuessIsCompared(cfg, n);
    OneMoreEvent(FreshAccount, cfg, 0, events, Login(n + 1, false, NotEnabled));
  }

  lemma NoneIsCompared(cfg: Config)
    ensures ComparesAll(cfg, [], 0)
  {
    assert Instants(0) == [];
  }

  /** While fewer than `max` failures are there, every guess is compared and recorded. */
  lemma {:induction false} GuessesAreCompared(cfg: Config, n: nat)
    requires 0 <= n <= cfg.max <= cfg.window
    ensures ComparesAll(cfg, Guesses(n), n)
  {
    if n == 0 {
      assert Guesses(0) == [];
      NoneIsCompared(cfg);
    } else {
      GuessesAreCompared(cfg, n - 1);
      OneMoreGuess(n - 1);
      OneMoreIsCompared(cfg, Guesses(n - 1), n - 1);
    }
  }

  lemma {:induction false} AllInWindow(attempts: seq<int>, t: int, window: int)
    requires forall i | 0 <= i < |attempts| :: t - window <= attempts[i] <= t
    ensures InWindow(attempts, t, window) == attempts
  {
    if attempts != [] {
      AllInWindow(attempts[..|attempts| - 1], t, window);
      assert attempts == attempts[..|attempts| - 1] + [attempts[|attempts| - 1]];
    }
  }

  /** The bound is reached for every `max`, when the window is long enough to hold that many instants. */
  lemma BoundIsTight(cfg: Config)
    requires 1 <= cfg.max <= cfg.window
    ensures var guesses, t := Guesses(cfg.max + 1), cfg.max + 1;
            && Timed(0, guesses) && NoSuccess(FreshAccount, cfg, guesses)
            && |InWindow(GuessTimes(FreshAccount, cfg, guesses), t, cfg.window)| == cfg.max + 1
  {
    var n := cfg.max;
    GuessesAreCompared(cfg, n);
    OneMoreGuess(n);
    NextGuessIsCompared(cfg, n);
    OneMoreEvent(FreshAccount, cfg, 0, Guesses(n), Login(n + 1, false, NotEnabled));
    AllInWindow(Instants(n + 1), n + 1, cfg.window);
  }

  // ---------------------------------------------------------------- exactly which settings are bounded

  ghost predicate RunIsBounded(cfg: Config, clock: int, events: seq<Event>, t: int) {
    Timed(clock, events) && NoSuccess(FreshAccount, cfg, events) ==>
      |InWindow(GuessTimes(FreshAccount, cfg, events), t, cfg.window)| <= cfg.max + 1
  }

  ghost predicate Bounded(cfg: Config) {
    forall clock, events, t :: RunIsBounded(cfg, clock, events, t)
  }

  lemma {:induction false} GuessTimesIncrease(a: Account, cfg: Config, clock: int, events: seq<Event>)
    requires Timed(clock, events)
    ensures Increasing(GuessTimes(a, cfg, events))
    ensures forall i | 0 <= i < |GuessTimes(a, cfg, events)| :: GuessTimes(a, cfg, events)[i] <= Clock(clock, events)
  {
    if events != [] { GuessTimesIncrease(a, cfg, clock, events[..|events| - 1]); }
  }

  /** A window of one instant holds at most one of ever later guesses, and a negative one none. */
  lemma {:induction false} InstantHoldsOne(times: seq<int>, t: int, window: int)
    requires Increasing(times) && window <= 0
    ensures |InWindow(times, t, window)| <= 1
    ensures window < 0 || (times != [] && times[|times| - 1] < t) ==> |InWindow(times, t, window)| == 0
  {
    if times != [] { InstantHoldsOne(times[..|times| - 1], t, window); }
  }

  /** With `max` 0 the first guess locks, and the lock lapses at the far end of its own window. */
  lemma ZeroMaxBreaksTheBound(cfg: Config)
    requires cfg.max == 0 && cfg.window > 0
    ensures var guesses := [Login(1, false, NotEnabled), Login(1 + cfg.window, false, NotEnabled)];
            && Timed(0, guesses) && NoSuccess(FreshAccount, cfg, guesses)
            && InWindow(GuessTimes(FreshAccount, cfg, guesses), 1 + cfg.window, cfg.window) == [1, 1 + cfg.window]
  {
    var g1, g2 := Login(1, false, NotEnabled), Login(1 + cfg.window, false, NotEnabled);
    OneGuess(cfg);
    assert [g1, g2][..1] == [g1] && [g1, g2][1] == g2;
    assert GuessTimes(FreshAccount, cfg, [g1, g2]) == [1] + [1 + cfg.window];
    AllInWindow([1, 1 + cfg.window], 1 + cfg.window, cfg.window);
  }

  /** The first guess is always compared. */
  lemma OneGuess(cfg: Config)
    ensures var guess := [Login(1, false, NotEnabled)];
            && Timed(0, guess) && NoSuccess(FreshAccount, cfg, guess) && GuessTimes(FreshAccount, cfg, guess) == [1]
            && Run(FreshAccount, cfg, guess)
                 == Account(if cfg.max <= 0 then LOCKED else ACTIVE, if cfg.max <= 0 then Some(1 + cfg.window) else None, 1, [1])
  {
    var g := Login(1, false, NotEnabled);
    assert [g][..0] == [];
    assert [] + [1] == [1];
    assert Recent(FreshAccount, cfg, 1) == 0;
  }

  /** What the settings must satisfy for the bound to be the number they name. */
  predicate SoundSettings(cfg: Config) {
    cfg.max >= 1 || (cfg.max == 0 && cfg.window == 0) || (cfg.max >= -1 && cfg.window < 0)
  }

  /**
   * The settings may be any integers. Every run without a success keeps every window to `max + 1` wrong
   * guesses exactly for a `max` of at least one, or of zero with an empty lockout, or a lockout that
   * lies in the past.
   */
  lemma BoundedExactly(cfg: Config)
    ensures Bounded(cfg) <==> SoundSettings(cfg)
  {
    if SoundSettings(cfg) {
      forall clock, events, t ensures RunIsBounded(cfg, clock, events, t) { SoundSettingsBound(cfg, clock, events, t); }
    } else {
      OneGuess(cfg);
      if cfg.max == 0 {
        var guesses := [Login(1, false, NotEnabled), Login(1 + cfg.window, false, NotEnabled)];
        ZeroMaxBreaksTheBound(cfg);
        assert !RunIsBounded(cfg, 0, guesses, 1 + cfg.window);
      } else if cfg.window >= 0 {
        AllInWindow([1], 1, cfg.window);
        assert !RunIsBounded(cfg, 0, [Login(1, false, NotEnabled)], 1);
      } else {
        assert !RunIsBounded(cfg, 0, [], 0);
      }
    }
  }

  lemma SoundSettingsBound(cfg: Config, clock: int, events: seq<Event>, t: int)
    requires SoundSettings(cfg)
    ensures RunIsBounded(cfg, clock, events, t)
  {
    if Timed(clock, events) && NoSuccess(FreshAccount, cfg, events) {
      if cfg.max >= 1 {
        GuessesAreBounded(FreshAccount, cfg, clock, events, t);
      } else {
        GuessTimesIncrease(FreshAccount, cfg, clock, events);
        InstantHoldsOne(GuessTimes(FreshAccount, cfg, events), t, cfg.window);
      }
    }
  }

  // ---------------------------------------------------------------- the life of a lock

  /** The event has just locked the account. */
  predicate Locks(a: Account, cfg: Config, e: Event) {
    var a' := Handle(a, cfg, e).0;
    a'.lockedUntil == Some(e.now + cfg.window) && a'.attempts != a.attempts && a'.status == LOCKED
  }

  /** While the lock is in force every login is refused and nothing is recorded. */
  lemma {:induction false} LockShutsOut(a: Account, cfg: Config, events: seq<Event>)
    requires a.status == LOCKED && a.lockedUntil.Some?
    requires forall i | 0 <= i < |events| :: !events[i].PasswordReset? && events[i].now < a.lockedUntil.value
    ensures Run(a, cfg, events) == a
    ensures forall i | 0 <= i < |events| :: Handle(a, cfg, events[i]) == (a, TooManyRequests)
  {
    if events != [] { LockShutsOut(a, cfg, events[..|events| - 1]); }
  }

  /**
   * Once a lock has lapsed at most the failure that caused it still counts, and only at the very
   * instant of lapsing; so a wrong guess locks again at once only if `max` is 1 at that instant.
   */
  lemma LapsedLockForgives(a: Account, cfg: Config, clock: int, e: Event, now: int)
    requires cfg.max >= 1 && Inv(a, cfg, clock) && clock < e.now && Locks(a, cfg, e) && e.now + cfg.window <= now && e.now < now
    ensures var a' := Handle(a, cfg, e).0;
            && Recent(a', cfg, now) == (if now == e.now + cfg.window then 1 else 0)
            && (FailAttempt(a', cfg, now).lockedUntil == Some(now + cfg.window)
                <==> cfg.max == 1 && now == e.now + cfg.window)
  {
    LockingLeavesARow(a, cfg, clock, e);
    AfterTheLapse(Handle(a, cfg, e).0, a.attempts, cfg, e.now, now);
  }

  lemma AfterTheLapse(a: Account, before: seq<int>, cfg: Config, locked: int, now: int)
    requires cfg.max >= 1 && locked + cfg.window <= now && locked < now
    requires a.attempts == before + [locked] && a.lockedUntil == Some(locked + cfg.window)
    requires forall i | 0 <= i < |before| :: before[i] < locked
    ensures Recent(a, cfg, now) == (if now == locked + cfg.window then 1 else 0)
    ensures FailAttempt(a, cfg, now).lockedUntil == Some(now + cfg.window) <==> cfg.max == 1 && now == locked + cfg.window
  {
    OnlyTheLastCounts(before, locked, now - cfg.window);
    RelocksExactly(a, cfg, now);
  }

  lemma LockingLeavesARow(a: Account, cfg: Config, clock: int, e: Event)
    requires cfg.max >= 1 && Inv(a, cfg, clock) && clock < e.now && Locks(a, cfg, e)
    ensures Handle(a, cfg, e).0.attempts == a.attempts + [e.now]
    ensures forall i | 0 <= i < |a.attempts| :: a.attempts[i] < e.now
  {
    StepEffect(a, cfg, e);
  }

  lemma RelocksExactly(a: Account, cfg: Config, now: int)
    requires a.lockedUntil != Some(now + cfg.window)
    ensures FailAttempt(a, cfg, now).lockedUntil == Some(now + cfg.window) <==> Recent(a, cfg, now) >= cfg.max
  {}

  lemma OnlyTheLastCounts(attempts: seq<int>, last: int, since: int)
    requires forall i | 0 <= i < |attempts| :: attempts[i] < since
    ensures CountSince(attempts + [last], since) == if last >= since then 1 else 0
  {
    NoneSince(attempts, since);
    assert (attempts + [last])[..|attempts|] == attempts;
  }

  // ---------------------------------------------------------------- the handlers

  class LoginGuard {
    const cfg: Config
    var status: Status
    var lockedUntil: Option<int>
    var failedAttempts: nat
    var attempts: seq<int>

    ghost function Model(): Account
      reads this
    {
      Account(status, lockedUntil, failedAttempts, attempts)
    }

    constructor (cfg: Config)
      ensures this.cfg == cfg && Model() == FreshAccount
    {
      this.cfg := cfg;
      status, lockedUntil, failedAttempts, attempts := ACTIVE, None, 0, [];
    }

    method LogFailedAttempt(now: int)
      modifies this`attempts
      ensures Model() == LogFailure(old(Model()), now)
    {
      attempts := attempts + [now];
    }

    method HandleFailedAttempt(now: int)
      modifies this
      ensures Model() == FailAttempt(old(Model()), cfg, now)
    {
      failedAttempts := failedAttempts + 1;
      var recent := CountSince(attempts, now - cfg.window);
      if recent >= cfg.max {
        status, lockedUntil := LOCKED, Some(now + cfg.window);
      }
      LogFailedAttempt(now);
    }

    method UpdateLoginSuccess()
      modifies this
      ensures Model() == Restore(old(Model()))
    {
      status, lockedUntil, failedAttempts, attempts := ACTIVE, None, 0, [];
    }

    method LoginWithPassword(now: int, passwordOk: bool, mfa: Mfa) returns (outcome: Outcome)
      modifies this
      ensures (Model(), outcome) == OnLogin(old(Model()), cfg, now, passwordOk, mfa)
    {
      if status == INACTIVE || status == SUSPENDED { return Forbidden; }
      var locked := lockedUntil.Some? && lockedUntil.value > now;
      if status == LOCKED && locked { return TooManyRequests; }
      if locked {
        LogFailedAttempt(now);
        return TooManyRequests;
      }
      if !passwordOk {
        HandleFailedAttempt(now);
        return InvalidCredentials;
      }
      if mfa.Missing? { return MfaRequired; }
      if mfa.Rejected? {
        HandleFailedAttempt(now);
        return InvalidCredentials;
      }
      var recent := CountSince(attempts, now - cfg.window);
      if recent >= cfg.max {
        status, lockedUntil := LOCKED, Some(now + cfg.window);
        LogFailedAttempt(now);
        return TooManyRequests;
      }
      UpdateLoginSuccess();
      outcome := Success;
    }

    method LoginWithVerifiedIdentity(now: int) returns (outcome: Outcome)
      modifies this
      ensures (Model(), outcome) == OnSsoLogin(old(Model()), now)
    {
      if status == INACTIVE || status == SUSPENDED { return Forbidden; }
      var locked := lockedUntil.Some? && lockedUntil.value > now;
      if status == LOCKED && locked { return TooManyRequests; }
      if locked {
        LogFailedAttempt(now);
        return TooManyRequests;
      }
      UpdateLoginSuccess();
      outcome := Success;
    }
  }

  /**
   * A second factor is a TOTP or a recovery code. A recovery code is consumed: the first matching
   * hash goes, the others stay in order, and when no two hashes match one code it never works again.
   */
  method VerifyMfaCode(totpOk: bool, hashes: seq<nat>, matches: nat -> bool) returns (ok: bool, remaining: seq<nat>)
    ensures totpOk ==> ok && remaining == hashes
    ensures !totpOk ==> (ok <==> exists h | h in hashes :: matches(h))
    ensures !ok ==> remaining == hashes
    ensures ok && !totpOk ==>
              exists i | 0 <= i < |hashes| :: && matches(hashes[i]) && remaining == hashes[..i] + hashes[i + 1..]
                                              && forall j | 0 <= j < i :: !matches(hashes[j])
    ensures ok && !totpOk && (forall i, j | 0 <= i < j < |hashes| :: !(matches(hashes[i]) && matches(hashes[j]))) ==>
              forall h | h in remaining :: !matches(h)
  {
    if totpOk { return true, hashes; }
    for i := 0 to |hashes|
      invariant forall j | 0 <= j < i :: !matches(hashes[j])
    {
      if matches(hashes[i]) {
        return true, hashes[..i] + hashes[i + 1..];
      }
    }
    return false, hashes;
  }
}
