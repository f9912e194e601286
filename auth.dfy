/** The authentication service (src/services/authService.ts): registration
    into an in-memory user directory, login with a persisted failed-attempt
    counter and a time-boxed lockout, and the session lifecycle. The clock is
    a parameter: `now` is the millisecond timestamp `Date.now()` would give. */
module Auth {
  import opened Wrappers
  import opened AuthTypes
  import opened Constants
  import opened Decimal
  import opened Storage

  /** The outcomes `login` reports; the source formats each as a message. */
  datatype LoginResult =
    | LoggedIn(user: User)
      /** A lockout is in force; it ends in this many (started) minutes. */
    | AccountLocked(remainingMinutes: int)
      /** This failure reached the limit and started a lockout. */
    | LockoutTriggered
      /** Unknown identifier or wrong password; this many tries are left. */
    | InvalidCredentials(attemptsRemaining: int)

  datatype LockoutStatus = LockoutStatus(isLocked: bool, remainingMinutes: Option<int>)

  /** `Math.ceil(ms / 60000)`: the least whole number of minutes covering `ms`. */
  function RemainingMinutes(ms: int): (minutes: int)
    ensures (minutes - 1) * MS_PER_MINUTE < ms <= minutes * MS_PER_MINUTE
  {
    if ms % MS_PER_MINUTE == 0 then ms / MS_PER_MINUTE else ms / MS_PER_MINUTE + 1
  }

  /** `lockoutTime && now < lockoutTime`: a stored, non-zero lockout still in the future. */
  predicate LockoutActive(lockout: Option<int>, now: int) {
    lockout.Some? && lockout.value != 0 && now < lockout.value
  }

  /** `lockoutTime && now >= lockoutTime`: a stored, non-zero lockout that has run out. */
  predicate LockoutExpired(lockout: Option<int>, now: int) {
    lockout.Some? && lockout.value != 0 && now >= lockout.value
  }

  /** The directory holds the identifier with exactly this password. */
  predicate Authenticates(users: map<string, UserRecord>, credentials: LoginCredentials) {
    credentials.emailOrUsername in users && users[credentials.emailOrUsername].password == credentials.password
  }

  /** The session a successful login at `now` issues for `user`. */
  function NewSession(user: User, now: nat): SessionData {
    SessionData(user, "token_" + IntToString(now), now + SESSION_DURATION_MS)
  }

  /** The directory after registering `user` from `data`: one record, under
      the e-mail address and under the username (the later key wins if the
      two coincide with existing entries). */
  function Enroll(users: map<string, UserRecord>, data: RegistrationData, user: User): map<string, UserRecord> {
    users[data.email := UserRecord(data.password, user)][data.username := UserRecord(data.password, user)]
  }

  /** The state after login's expiry check: an expired lockout is cleared,
      and the counter with it. */
  function ClearExpiredLockout(s: Store, now: nat): (r: Store)
    requires WellFormed(s.items)
    ensures WellFormed(r.items)
  {
    if LockoutExpired(LockoutIn(s.items), now) then Without(Without(s, LOCKOUT_UNTIL_KEY), LOGIN_ATTEMPTS_KEY) else s
  }

  /** The state a successful login leaves: counter and lockout removed, a
      new session, the credentials in the keychain. */
  function RecordSuccess(s: Store, user: User, credentials: LoginCredentials, now: nat): (r: Store)
    requires WellFormed(s.items)
    ensures WellFormed(r.items)
  {
    var cleared := Without(Without(s, LOGIN_ATTEMPTS_KEY), LOCKOUT_UNTIL_KEY);
    WithCredentials(WithSession(cleared, NewSession(user, now)), credentials)
  }

  /** What a failed login reports and the state it leaves: the counter one
      higher and, on reaching the limit, a lockout until 15 minutes from now. */
  function RecordFailure(s: Store, now: nat): (out: (LoginResult, Store))
    requires WellFormed(s.items)
    ensures WellFormed(out.1.items)
  {
    var attempts := AttemptsIn(s.items) + 1;
    var counted := WithAttempts(s, attempts);
    if attempts >= MAX_LOGIN_ATTEMPTS then
      (LockoutTriggered, WithLockout(counted, now + LOCKOUT_DURATION_MS))
    else
      (InvalidCredentials(MAX_LOGIN_ATTEMPTS - attempts), counted)
  }

  /** What `login` reports and the persisted state it leaves, step by step as
      the service performs it. */
  function LoginOutcome(users: map<string, UserRecord>, s: Store, credentials: LoginCredentials, now: nat): (out: (LoginResult, Store))
    requires WellFormed(s.items)
    ensures WellFormed(out.1.items)
  {
    var lockout := LockoutIn(s.items);
    if LockoutActive(lockout, now) then
      (AccountLocked(RemainingMinutes(lockout.value - now)), s)
    else
      var unlocked := ClearExpiredLockout(s, now);
      if Authenticates(users, credentials) then
        var user := users[credentials.emailOrUsername].user;
        (LoggedIn(user), RecordSuccess(unlocked, user, credentials, now))
      else
        RecordFailure(unlocked, now)
  }

  /** What `restoreSession` returns and the persisted state it leaves. */
  function RestoreOutcome(s: Store, now: nat): (out: (Option<User>, Store))
    requires WellFormed(s.items)
    ensures WellFormed(out.1.items)
  {
    var session := SessionIn(s.items);
    if session.Some? && session.value.expiresAt > now then (Some(session.value.user), s)
    else (None, Without(s, SESSION_KEY))
  }

  /** What `checkLockoutStatus` reports. */
  function LockoutStatusAt(items: map<string, Stored>, now: nat): (status: LockoutStatus)
    requires WellFormed(items)
    ensures status.isLocked <==> LockoutIn(items).Some? && now < LockoutIn(items).value
    ensures status.isLocked <==> status.remainingMinutes.Some?
    ensures status.isLocked ==> status.remainingMinutes.value >= 1
  {
    var lockout := LockoutIn(items);
    if LockoutActive(lockout, now) then LockoutStatus(true, Some(RemainingMinutes(lockout.value - now)))
    else LockoutStatus(false, None)
  }

  /** The service: the user directory and the persistence it works through.
      The source keeps both as process-wide statics; here they are the state
      of one object. */
  class AuthService {
    var users: map<string, UserRecord>
    const storage: StorageService

    ghost predicate Valid()
      reads this, storage
    {
      storage.Valid()
    }

    /** A service over an empty directory and the given persistence. */
    constructor (storage: StorageService)
      requires storage.Valid()
      ensures Valid() && this.storage == storage && users == map[]
    {
      this.storage := storage;
      users := map[];
    }

    /** Creates the user from the form data, files it under the e-mail
        address and the username, and clears the registration draft. The id
        is the decimal text of `now`; `createdAt` is the ISO timestamp. */
    method Register(data: RegistrationData, now: nat, createdAt: string) returns (user: User)
      requires Valid()
      modifies this, storage
      ensures Valid()
      ensures user.id == IntToString(now) && user.createdAt == createdAt
      ensures && user.firstName == data.firstName && user.lastName == data.lastName
              && user.email == data.email && user.username == data.username
              && user.phoneNumber == data.phoneNumber && user.country == data.country
              && user.dateOfBirth == data.dateOfBirth
      ensures users == Enroll(old(users), data, user)
      ensures storage.State() == Without(old(storage.State()), REGISTRATION_DRAFT_KEY)
    {
      user := User(IntToString(now), data.firstName, data.lastName, data.email, data.username,
                   data.phoneNumber, data.country, data.dateOfBirth, createdAt);
      users := users[data.email := UserRecord(data.password, user)];
      users := users[data.username := UserRecord(data.password, user)];
      storage.ClearRegistrationDraft();
    }

    method Login(credentials: LoginCredentials, now: nat) returns (result: LoginResult)
      requires Valid()
      modifies storage
      ensures Valid()
      ensures (result, storage.State()) == LoginOutcome(users, old(storage.State()), credentials, now)
    {
      var lockoutTime := storage.GetLockoutTime();
      if LockoutActive(lockoutTime, now) {
        return AccountLocked(RemainingMinutes(lockoutTime.value - now));
      }

      if LockoutExpired(lockoutTime, now) {
        storage.ClearLockout();
        storage.ResetLoginAttempts();
      }

      if credentials.emailOrUsername in users && users[credentials.emailOrUsername].password == credentials.password {
        var userData := users[credentials.emailOrUsername];
        storage.ResetLoginAttempts();
        storage.ClearLockout();
        var session := SessionData(userData.user, "token_" + IntToString(now), now + SESSION_DURATION_MS);
        storage.SaveSession(session);
        var saved := storage.SaveCredentials(credentials);
        return LoggedIn(userData.user);
      }

      var attempts := storage.IncrementLoginAttempts();
      if attempts >= MAX_LOGIN_ATTEMPTS {
        storage.SetLockoutTime(now + LOCKOUT_DURATION_MS);
        return LockoutTriggered;
      }
      return InvalidCredentials(MAX_LOGIN_ATTEMPTS - attempts);
    }

    method Logout()
      requires Valid()
      modifies storage
      ensures Valid()
      ensures storage.State() == Without(old(storage.State()), SESSION_KEY)
    {
      storage.ClearSession();
    }

    method RestoreSession(now: nat) returns (user: Option<User>)
      requires Valid()
      modifies storage
      ensures Valid()
      ensures (user, storage.State()) == RestoreOutcome(old(storage.State()), now)
    {
      var session := storage.GetSession();
      if session.Some? && session.value.expiresAt > now {
        return Some(session.value.user);
      }
      storage.ClearSession();
      return None;
    }

    /** A read-only look at the lockout: unlike `Login`, it does not clear an
        expired one. */
    method CheckLockoutStatus(now: nat) returns (status: LockoutStatus)
      requires Valid()
      ensures status == LockoutStatusAt(storage.items, now)
    {
      var lockoutTime := storage.GetLockoutTime();
      if LockoutActive(lockoutTime, now) {
        return LockoutStatus(true, Some(RemainingMinutes(lockoutTime.value - now)));
      }
      return LockoutStatus(false, None);
    }
  }
}
