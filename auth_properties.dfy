/** What the authentication service promises about lockout, login, sessions
    and registration, proved of the outcome functions its methods are
    verified against. */
module AuthProperties {
  import opened Wrappers
  import opened AuthTypes
  import opened Constants
  import opened Decimal
  import opened Storage
  import opened Auth

  // ----- A single login -----

  /** While a lockout is in force, login reports the minutes left (at least
      one) and changes nothing: no attempt is counted, whatever the password. */
  lemma LoginWhileLocked(users: map<string, UserRecord>, s: Store, credentials: LoginCredentials, now: nat, until: int)
    requires WellFormed(s.items) && LockoutIn(s.items) == Some(until) && now < until
    ensures LoginOutcome(users, s, credentials, now) == (AccountLocked(RemainingMinutes(until - now)), s)
    ensures RemainingMinutes(until - now) >= 1
  {
  }

  /** Login's expiry check: an expired lockout goes, and the counter with it;
      otherwise nothing changes. The rest of the state is untouched. */
  lemma ClearExpiredLockoutEffect(s: Store, now: nat)
    requires WellFormed(s.items)
    ensures var expired := LockoutExpired(LockoutIn(s.items), now);
      var after := ClearExpiredLockout(s, now);
      && AttemptsIn(after.items) == (if expired then 0 else AttemptsIn(s.items))
      && LockoutIn(after.items) == (if expired then None else LockoutIn(s.items))
      && after.vault == s.vault && SessionIn(after.items) == SessionIn(s.items)
      && DraftIn(after.items) == DraftIn(s.items) && ThemeIn(after.items) == ThemeIn(s.items)
  {
    if LockoutExpired(LockoutIn(s.items), now) {
      RemoveLeavesOtherKeys(s, LOCKOUT_UNTIL_KEY);
      RemoveLeavesOtherKeys(Without(s, LOCKOUT_UNTIL_KEY), LOGIN_ATTEMPTS_KEY);
      RemovedKeysReadAsDefault(Without(s, LOCKOUT_UNTIL_KEY));
    }
  }

  /** A successful login (no lockout in force, identifier and password
      matching the directory) leaves the counter at 0 and no lockout, a
      24-hour session for the directory's user, and exactly the supplied
      credentials in the keychain; the draft and the theme stay as they were. */
  lemma LoginSuccess(users: map<string, UserRecord>, s: Store, credentials: LoginCredentials, now: nat)
    requires WellFormed(s.items) && !LockoutActive(LockoutIn(s.items), now)
    requires Authenticates(users, credentials)
    ensures var (result, after) := LoginOutcome(users, s, credentials, now);
      var user := users[credentials.emailOrUsername].user;
      && result == LoggedIn(user)
      && AttemptsIn(after.items) == 0 && LockoutIn(after.items) == None
      && SessionIn(after.items) == Some(SessionData(user, "token_" + IntToString(now), now + 86400000))
      && after.vault == Some(credentials)
      && DraftIn(after.items) == DraftIn(s.items) && ThemeIn(after.items) == ThemeIn(s.items)
  {
    var unlocked := ClearExpiredLockout(s, now);
    ClearExpiredLockoutEffect(s, now);
    var cleared := Without(Without(unlocked, LOGIN_ATTEMPTS_KEY), LOCKOUT_UNTIL_KEY);
    var user := users[credentials.emailOrUsername].user;
    RemoveLeavesOtherKeys(unlocked, LOGIN_ATTEMPTS_KEY);
    RemoveLeavesOtherKeys(Without(unlocked, LOGIN_ATTEMPTS_KEY), LOCKOUT_UNTIL_KEY);
    RemovedKeysReadAsDefault(unlocked);
    RemovedKeysReadAsDefault(Without(unlocked, LOGIN_ATTEMPTS_KEY));
    WriteLeavesOtherKeys(cleared, SESSION_KEY, SessionJson(NewSession(user, now)));
  }

  /** A failure counted on state `s`: the counter one higher; at the limit a
      lockout until 15 minutes from now, below it the tries left; nothing
      else changes. */
  lemma RecordFailureEffect(s: Store, now: nat)
    requires WellFormed(s.items)
    ensures var (result, after) := RecordFailure(s, now);
      var attempts := AttemptsIn(s.items) + 1;
      && AttemptsIn(after.items) == attempts
      && (attempts >= 5 ==> result == LockoutTriggered && LockoutIn(after.items) == Some(now + 900000))
      && (attempts < 5 ==> result == InvalidCredentials(5 - attempts) && LockoutIn(after.items) == LockoutIn(s.items))
      && SessionIn(after.items) == SessionIn(s.items) && after.vault == s.vault
      && DraftIn(after.items) == DraftIn(s.items) && ThemeIn(after.items) == ThemeIn(s.items)
  {
    var attempts := AttemptsIn(s.items) + 1;
    var counted := WithAttempts(s, attempts);
    WriteLeavesOtherKeys(s, LOGIN_ATTEMPTS_KEY, Text(IntToString(attempts)));
    if attempts >= MAX_LOGIN_ATTEMPTS {
      WriteLeavesOtherKeys(counted, LOCKOUT_UNTIL_KEY, Text(IntToString(now + LOCKOUT_DURATION_MS)));
    }
  }

  /** A failed login (no lockout in force; unknown identifier or wrong
      password) raises the one shared counter by exactly one, counting from
      0 if an expired lockout was just cleared. Reaching 5 starts a 15-minute
      lockout; below 5 the failure reports 5 minus the count. The session and
      the keychain are left alone. */
  lemma LoginFailure(users: map<string, UserRecord>, s: Store, credentials: LoginCredentials, now: nat)
    requires WellFormed(s.items) && !LockoutActive(LockoutIn(s.items), now)
    requires !Authenticates(users, credentials)
    ensures var (result, after) := LoginOutcome(users, s, credentials, now);
      var expired := LockoutExpired(LockoutIn(s.items), now);
      var attempts := (if expired then 0 else AttemptsIn(s.items)) + 1;
      && AttemptsIn(after.items) == attempts
      && (attempts >= 5 ==> result == LockoutTriggered && LockoutIn(after.items) == Some(now + 900000))
      && (attempts < 5 ==> result == InvalidCredentials(5 - attempts)
                           && LockoutIn(after.items) == (if expired then None else LockoutIn(s.items)))
      && SessionIn(after.items) == SessionIn(s.items) && after.vault == s.vault
      && DraftIn(after.items) == DraftIn(s.items) && ThemeIn(after.items) == ThemeIn(s.items)
  {
    ClearExpiredLockoutEffect(s, now);
    RecordFailureEffect(ClearExpiredLockout(s, now), now);
  }

  /** Once a lockout has run out, login clears it and the counter before
      checking the credentials: the right password succeeds at once, and a
      wrong one counts as the first failure. */
  lemma LoginAfterExpiry(users: map<string, UserRecord>, s: Store, credentials: LoginCredentials, now: nat, until: int)
    requires WellFormed(s.items) && LockoutIn(s.items) == Some(until) && until != 0 && until <= now
    ensures var (result, after) := LoginOutcome(users, s, credentials, now);
      && (Authenticates(users, credentials) ==> result == LoggedIn(users[credentials.emailOrUsername].user))
      && (!Authenticates(users, credentials) ==>
            result == InvalidCredentials(4) && AttemptsIn(after.items) == 1 && LockoutIn(after.items) == None)
  {
    if Authenticates(users, credentials) {
      LoginSuccess(users, s, credentials, now);
    } else {
      LoginFailure(users, s, credentials, now);
    }
  }

  // ----- Lockout reporting -----

  /** For the lockout a failure at `setAt` starts, any time from `setAt` until
      it ends has between 1 and 15 minutes left. */
  lemma LockoutMinutesInRange(setAt: nat, now: nat)
    requires setAt <= now < setAt + LOCKOUT_DURATION_MS
    ensures 1 <= RemainingMinutes(setAt + LOCKOUT_DURATION_MS - now) <= 15
  {
  }

  /** `checkLockoutStatus` and `login` agree: the status says locked exactly
      when a login at the same instant is refused for the lockout, with the
      same minutes, and such a refusal leaves the state (and so the lockout)
      in place. */
  lemma StatusAgreesWithLogin(users: map<string, UserRecord>, s: Store, credentials: LoginCredentials, now: nat)
    requires WellFormed(s.items)
    ensures var status := LockoutStatusAt(s.items, now);
      var (result, after) := LoginOutcome(users, s, credentials, now);
      && (status.isLocked <==> result.AccountLocked?)
      && (status.isLocked ==> status.remainingMinutes == Some(result.remainingMinutes) && after == s)
  {
  }

  // ----- A run of logins -----

  datatype LoginCall = LoginCall(credentials: LoginCredentials, now: nat)

  /** The results of the given logins made one after another, and the state after them. */
  function RunLogins(users: map<string, UserRecord>, s: Store, calls: seq<LoginCall>): (out: (seq<LoginResult>, Store))
    requires WellFormed(s.items)
    ensures WellFormed(out.1.items) && |out.0| == |calls|
  {
    if calls == [] then ([], s)
    else
      var (results, before) := RunLogins(users, s, calls[..|calls| - 1]);
      var last := calls[|calls| - 1];
      var (result, after) := LoginOutcome(users, before, last.credentials, last.now);
      (results + [result], after)
  }

  /** From `k` recorded failures and no lockout, further failures (under any
      identifiers, since the counter is shared) that stay below the limit
      report 4 - k, 3 - k, ... tries left and start no lockout. */
  lemma {:induction false} FailuresCountDown(users: map<string, UserRecord>, s: Store, calls: seq<LoginCall>, k: nat)
    requires WellFormed(s.items) && AttemptsIn(s.items) == k && LockoutIn(s.items) == None
    requires k + |calls| < MAX_LOGIN_ATTEMPTS
    requires forall i :: 0 <= i < |calls| ==> !Authenticates(users, calls[i].credentials)
    ensures var (results, after) := RunLogins(users, s, calls);
      && (forall i :: 0 <= i < |calls| ==> results[i] == InvalidCredentials(4 - k - i))
      && AttemptsIn(after.items) == k + |calls| && LockoutIn(after.items) == None
  {
    if calls != [] {
      var prefix := calls[..|calls| - 1];
      FailuresCountDown(users, s, prefix, k);
      var (results, before) := RunLogins(users, s, prefix);
      var last := calls[|calls| - 1];
      LoginFailure(users, before, last.credentials, last.now);
    }
  }

  /** The fifth failure in a row, with no lockout stored, starts the
      15-minute lockout. */
  lemma FailureAtLimit(users: map<string, UserRecord>, s: Store, credentials: LoginCredentials, now: nat)
    requires WellFormed(s.items) && AttemptsIn(s.items) == MAX_LOGIN_ATTEMPTS - 1 && LockoutIn(s.items) == None
    requires !Authenticates(users, credentials)
    ensures var (result, after) := LoginOutcome(users, s, credentials, now);
      result == LockoutTriggered && LockoutIn(after.items) == Some(now + LOCKOUT_DURATION_MS)
  {
    LoginFailure(users, s, credentials, now);
  }

  /** From a clean state, five failed logins (under any identifiers) report
      4, 3, 2 and 1 tries left and then start a 15-minute lockout. */
  lemma FiveFailuresStartLockout(users: map<string, UserRecord>, s: Store, calls: seq<LoginCall>)
    requires WellFormed(s.items) && AttemptsIn(s.items) == 0 && LockoutIn(s.items) == None
    requires |calls| == 5
    requires forall i :: 0 <= i < 5 ==> !Authenticates(users, calls[i].credentials)
    ensures var (results, after) := RunLogins(users, s, calls);
      && (forall i :: 0 <= i < 4 ==> results[i] == InvalidCredentials(4 - i))
      && results[4] == LockoutTriggered
      && LockoutIn(after.items) == Some(calls[4].now + LOCKOUT_DURATION_MS)
  {
    var prefix := calls[..4];
    assert calls[..|calls| - 1] == prefix;
    FailuresCountDown(users, s, prefix, 0);
    var before := RunLogins(users, s, prefix).1;
    FailureAtLimit(users, before, calls[4].credentials, calls[4].now);
  }

  /** After those five failures, until the lockout ends, any login, even
      with the right password, is refused with 1 to 15 minutes left, without
      authenticating and without changing the state. */
  lemma FifthFailureLocksOut(users: map<string, UserRecord>, s: Store, calls: seq<LoginCall>, retry: LoginCall)
    requires WellFormed(s.items) && AttemptsIn(s.items) == 0 && LockoutIn(s.items) == None
    requires |calls| == 5
    requires forall i :: 0 <= i < 5 ==> !Authenticates(users, calls[i].credentials)
    requires calls[4].now <= retry.now < calls[4].now + LOCKOUT_DURATION_MS
    ensures var after := RunLogins(users, s, calls).1;
      var (result, afterRetry) := LoginOutcome(users, after, retry.credentials, retry.now);
      && result.AccountLocked? && 1 <= result.remainingMinutes <= 15
      && afterRetry == after
  {
    FiveFailuresStartLockout(users, s, calls);
    var after := RunLogins(users, s, calls).1;
    LoginWhileLocked(users, after, retry.credentials, retry.now, calls[4].now + LOCKOUT_DURATION_MS);
    LockoutMinutesInRange(calls[4].now, retry.now);
  }

  // ----- Sessions -----

  /** `restoreSession` yields the stored user exactly when a session is
      stored that expires after `now`, and then changes nothing; otherwise it
      yields nothing and leaves no session stored. */
  lemma RestoreYieldsLiveSession(s: Store, now: nat)
    requires WellFormed(s.items)
    ensures var (user, after) := RestoreOutcome(s, now);
      var session := SessionIn(s.items);
      && (user.Some? <==> session.Some? && session.value.expiresAt > now)
      && (user.Some? ==> user.value == session.value.user && after == s)
      && (user.None? ==> SessionIn(after.items) == None)
  {
    RemovedKeysReadAsDefault(s);
  }

  /** After `logout`, `restoreSession` finds no session, at any time. */
  lemma LogoutThenRestore(s: Store, now: nat)
    requires WellFormed(s.items)
    ensures RestoreOutcome(Without(s, SESSION_KEY), now).0 == None
  {
    RemovedKeysReadAsDefault(s);
  }

  /** The session a login at `loginAt` issues restores its user for the
      next 24 hours, and is discarded once they are over. */
  lemma LoginThenRestore(users: map<string, UserRecord>, s: Store, credentials: LoginCredentials, loginAt: nat, now: nat)
    requires WellFormed(s.items) && !LockoutActive(LockoutIn(s.items), loginAt)
    requires Authenticates(users, credentials)
    ensures var after := LoginOutcome(users, s, credentials, loginAt).1;
      && (now < loginAt + SESSION_DURATION_MS ==>
            RestoreOutcome(after, now).0 == Some(users[credentials.emailOrUsername].user))
      && (now >= loginAt + SESSION_DURATION_MS ==>
            RestoreOutcome(after, now).0 == None && SessionIn(RestoreOutcome(after, now).1.items) == None)
  {
    LoginSuccess(users, s, credentials, loginAt);
    RestoreYieldsLiveSession(LoginOutcome(users, s, credentials, loginAt).1, now);
  }

  // ----- Registration -----

  /** Registration files one record under both the e-mail address and the
      username and leaves every other identifier as it was. */
  lemma EnrollFilesBothKeys(users: map<string, UserRecord>, data: RegistrationData, user: User)
    ensures var enrolled := Enroll(users, data, user);
      && data.email in enrolled && data.username in enrolled
      && enrolled[data.email] == enrolled[data.username] == UserRecord(data.password, user)
      && enrolled.Keys == users.Keys + {data.email, data.username}
      && (forall id :: id in users && id != data.email && id != data.username ==> enrolled[id] == users[id])
  {
  }

  /** A user just registered can log in with the registered password under
      either identifier, unless a lockout is in force. */
  lemma RegisteredUserCanLogIn(users: map<string, UserRecord>, data: RegistrationData, user: User, s: Store, now: nat)
    requires WellFormed(s.items) && !LockoutActive(LockoutIn(s.items), now)
    ensures LoginOutcome(Enroll(users, data, user), s, LoginCredentials(data.email, data.password), now).0 == LoggedIn(user)
    ensures LoginOutcome(Enroll(users, data, user), s, LoginCredentials(data.username, data.password), now).0 == LoggedIn(user)
  {
    EnrollFilesBothKeys(users, data, user);
  }
}
