/** The persistence layer (src/services/storageService.ts): a key-value store
    (AsyncStorage) holding the session, the registration draft, the failed
    login counter, the lockout timestamp and the theme, and a keychain slot
    holding one credential pair. */
module Storage {
  import opened Wrappers
  import opened AuthTypes
  import opened Constants
  import opened Decimal

  datatype ThemeMode = Light | Dark {
    function Name(): string {
      match this
      case Light => "light"
      case Dark => "dark"
    }
  }

  /** A value under a key of the store. Counters, timestamps and the theme are
      kept as text; the JSON text of a session or a draft is represented by
      the record it encodes. */
  datatype Stored = Text(text: string) | SessionJson(session: SessionData) | DraftJson(draft: RegistrationDraft)

  /** Everything the service persists: the key-value store and the keychain slot. */
  datatype Store = Store(items: map<string, Stored>, vault: Option<LoginCredentials>)

  /** The decimal text of a non-negative count. */
  predicate IsCountText(v: Stored) {
    v.Text? && v.text != [] && AllDigits(v.text)
  }

  /** The decimal text of a timestamp. */
  predicate IsTimeText(v: Stored) {
    v.Text? && IsDecimal(v.text)
  }

  /** Each key the service uses holds what the service writes there. */
  ghost predicate WellFormed(items: map<string, Stored>) {
    && (LOGIN_ATTEMPTS_KEY in items ==> IsCountText(items[LOGIN_ATTEMPTS_KEY]))
    && (LOCKOUT_UNTIL_KEY in items ==> IsTimeText(items[LOCKOUT_UNTIL_KEY]))
    && (SESSION_KEY in items ==> items[SESSION_KEY].SessionJson?)
    && (REGISTRATION_DRAFT_KEY in items ==> items[REGISTRATION_DRAFT_KEY].DraftJson?)
    && (THEME_MODE_KEY in items ==> items[THEME_MODE_KEY].Text?)
  }

  // ----- What a read of each key yields -----

  /** The failed-login count: the stored counter, 0 when the key is absent. */
  function AttemptsIn(items: map<string, Stored>): nat
    requires WellFormed(items)
  {
    if LOGIN_ATTEMPTS_KEY in items then DigitsValue(items[LOGIN_ATTEMPTS_KEY].text) else 0
  }

  /** The lockout timestamp, `None` when the key is absent. */
  function LockoutIn(items: map<string, Stored>): Option<int>
    requires WellFormed(items)
  {
    if LOCKOUT_UNTIL_KEY in items then Some(DecimalValue(items[LOCKOUT_UNTIL_KEY].text)) else None
  }

  function SessionIn(items: map<string, Stored>): Option<SessionData>
    requires WellFormed(items)
  {
    if SESSION_KEY in items then Some(items[SESSION_KEY].session) else None
  }

  function DraftIn(items: map<string, Stored>): Option<RegistrationDraft>
    requires WellFormed(items)
  {
    if REGISTRATION_DRAFT_KEY in items then Some(items[REGISTRATION_DRAFT_KEY].draft) else None
  }

  function ThemeIn(items: map<string, Stored>): Option<string>
    requires WellFormed(items)
  {
    if THEME_MODE_KEY in items then Some(items[THEME_MODE_KEY].text) else None
  }

  // ----- What each write does to the persisted state -----

  function WithCredentials(s: Store, c: LoginCredentials): Store {
    s.(vault := Some(c))
  }

  function WithoutCredentials(s: Store): Store {
    s.(vault := None)
  }

  /** The store with `key` removed (AsyncStorage.removeItem). */
  function Without(s: Store, key: string): (r: Store)
    requires WellFormed(s.items)
    ensures WellFormed(r.items)
  {
    s.(items := s.items - {key})
  }

  function WithSession(s: Store, session: SessionData): (r: Store)
    requires WellFormed(s.items)
    ensures WellFormed(r.items)
  {
    s.(items := s.items[SESSION_KEY := SessionJson(session)])
  }

  function WithDraft(s: Store, draft: RegistrationDraft): (r: Store)
    requires WellFormed(s.items)
    ensures WellFormed(r.items)
  {
    s.(items := s.items[REGISTRATION_DRAFT_KEY := DraftJson(draft)])
  }

  /** The counter written as `n.toString()`; reading it back gives `n`. */
  function WithAttempts(s: Store, n: nat): (r: Store)
    requires WellFormed(s.items)
    ensures WellFormed(r.items) && AttemptsIn(r.items) == n
  {
    DigitsValueOfNatToDecimal(n);
    s.(items := s.items[LOGIN_ATTEMPTS_KEY := Text(IntToString(n))])
  }

  /** The timestamp written as `t.toString()`; reading it back gives `t`. */
  function WithLockout(s: Store, t: int): (r: Store)
    requires WellFormed(s.items)
    ensures WellFormed(r.items) && LockoutIn(r.items) == Some(t)
  {
    DecimalOfIntToString(t);
    s.(items := s.items[LOCKOUT_UNTIL_KEY := Text(IntToString(t))])
  }

  function WithTheme(s: Store, mode: ThemeMode): (r: Store)
    requires WellFormed(s.items)
    ensures WellFormed(r.items)
  {
    s.(items := s.items[THEME_MODE_KEY := Text(mode.Name())])
  }

  // ----- Properties of the persisted state -----

  /** Removing a key makes its read yield the default: 0 attempts, no lockout,
      no session, no draft. An absent theme key reads as no theme, as before
      any theme is saved; the service itself never removes that key. */
  lemma RemovedKeysReadAsDefault(s: Store)
    requires WellFormed(s.items)
    ensures AttemptsIn(Without(s, LOGIN_ATTEMPTS_KEY).items) == 0
    ensures LockoutIn(Without(s, LOCKOUT_UNTIL_KEY).items) == None
    ensures SessionIn(Without(s, SESSION_KEY).items) == None
    ensures DraftIn(Without(s, REGISTRATION_DRAFT_KEY).items) == None
    ensures ThemeIn(Without(s, THEME_MODE_KEY).items) == None
  {
  }

  /** Whatever was stored before, a write is read back as written. */
  lemma WritesReadBack(s: Store, session: SessionData, draft: RegistrationDraft, mode: ThemeMode, c: LoginCredentials)
    requires WellFormed(s.items)
    ensures SessionIn(WithSession(s, session).items) == Some(session)
    ensures DraftIn(WithDraft(s, draft).items) == Some(draft)
    ensures ThemeIn(WithTheme(s, mode).items) == Some(mode.Name())
    ensures WithCredentials(s, c).vault == Some(c)
    ensures WithoutCredentials(s).vault == None
  {
  }

  /** The keychain keeps one pair: a second save replaces the first. */
  lemma VaultKeepsLastPair(s: Store, first: LoginCredentials, second: LoginCredentials)
    ensures WithCredentials(WithCredentials(s, first), second).vault == Some(second)
    ensures WithCredentials(WithCredentials(s, first), second).items == s.items
  {
  }

  /** The persisted state outside `key` reads the same in `s` and `r`: the
      keychain and the reads of the other store keys. */
  ghost predicate AgreeOutside(s: Store, r: Store, key: string)
    requires WellFormed(s.items) && WellFormed(r.items)
  {
    && r.vault == s.vault
    && (key != LOGIN_ATTEMPTS_KEY ==> AttemptsIn(r.items) == AttemptsIn(s.items))
    && (key != LOCKOUT_UNTIL_KEY ==> LockoutIn(r.items) == LockoutIn(s.items))
    && (key != SESSION_KEY ==> SessionIn(r.items) == SessionIn(s.items))
    && (key != REGISTRATION_DRAFT_KEY ==> DraftIn(r.items) == DraftIn(s.items))
    && (key != THEME_MODE_KEY ==> ThemeIn(r.items) == ThemeIn(s.items))
  }

  /** Replacing or removing the entry of one key leaves every other key's read alone. */
  lemma EntryChangeFrame(s: Store, r: Store, key: string)
    requires WellFormed(s.items) && WellFormed(r.items) && r.vault == s.vault
    requires forall k :: k != key ==> (k in r.items <==> k in s.items)
    requires forall k :: k != key && k in s.items ==> r.items[k] == s.items[k]
    ensures AgreeOutside(s, r, key)
  {
  }

  /** Each key names its own entry, so writing one key (as every setter of
      the service does) leaves what the other keys read, and the keychain,
      as they were. */
  lemma WriteLeavesOtherKeys(s: Store, key: string, v: Stored)
    requires WellFormed(s.items) && WellFormed(s.items[key := v])
    ensures AgreeOutside(s, s.(items := s.items[key := v]), key)
  {
    EntryChangeFrame(s, s.(items := s.items[key := v]), key);
  }

  /** Removing one key leaves what the other keys read, and the keychain, as they were. */
  lemma RemoveLeavesOtherKeys(s: Store, key: string)
    requires WellFormed(s.items)
    ensures AgreeOutside(s, Without(s, key), key)
  {
    EntryChangeFrame(s, Without(s, key), key);
  }

  /** The app's persistence service. Every operation reads, writes or removes
      exactly one key; the keychain operations touch only the vault. Storage
      failures (the logged-and-swallowed `catch` branches) are not modelled. */
  class StorageService {
    var items: map<string, Stored>
    var vault: Option<LoginCredentials>

    ghost predicate Valid()
      reads this
    {
      WellFormed(items)
    }

    function State(): Store
      reads this
    {
      Store(items, vault)
    }

    /** A service over what is already persisted (the store survives restarts). */
    constructor (persisted: Store)
      requires WellFormed(persisted.items)
      ensures Valid() && State() == persisted
    {
      items := persisted.items;
      vault := persisted.vault;
    }

    method SaveCredentials(credentials: LoginCredentials) returns (saved: bool)
      requires Valid()
      modifies this
      ensures Valid() && saved
      ensures State() == WithCredentials(old(State()), credentials)
    {
      vault := Some(credentials);
      saved := true;
    }

    method GetCredentials() returns (credentials: Option<LoginCredentials>)
      ensures credentials == vault
    {
      credentials := vault;
    }

    method ClearCredentials() returns (cleared: bool)
      requires Valid()
      modifies this
      ensures Valid() && cleared
      ensures State() == WithoutCredentials(old(State()))
    {
      vault := None;
      cleared := true;
    }

    method SaveSession(session: SessionData)
      requires Valid()
      modifies this
      ensures Valid() && State() == WithSession(old(State()), session)
      ensures SessionIn(items) == Some(session)
    {
      items := items[SESSION_KEY := SessionJson(session)];
    }

    method GetSession() returns (session: Option<SessionData>)
      requires Valid()
      ensures session == SessionIn(items)
      ensures session.Some? <==> SESSION_KEY in items
    {
      if SESSION_KEY in items {
        session := Some(items[SESSION_KEY].session);
      } else {
        session := None;
      }
    }

    method ClearSession()
      requires Valid()
      modifies this
      ensures Valid() && State() == Without(old(State()), SESSION_KEY)
      ensures SessionIn(items) == None
    {
      items := items - {SESSION_KEY};
    }

    method SaveRegistrationDraft(draft: RegistrationDraft)
      requires Valid()
      modifies this
      ensures Valid() && State() == WithDraft(old(State()), draft)
      ensures DraftIn(items) == Some(draft)
    {
      items := items[REGISTRATION_DRAFT_KEY := DraftJson(draft)];
    }

    method GetRegistrationDraft() returns (draft: Option<RegistrationDraft>)
      requires Valid()
      ensures draft == DraftIn(items)
      ensures draft.Some? <==> REGISTRATION_DRAFT_KEY in items
    {
      if REGISTRATION_DRAFT_KEY in items {
        draft := Some(items[REGISTRATION_DRAFT_KEY].draft);
      } else {
        draft := None;
      }
    }

    method ClearRegistrationDraft()
      requires Valid()
      modifies this
      ensures Valid() && State() == Without(old(State()), REGISTRATION_DRAFT_KEY)
      ensures DraftIn(items) == None
    {
      items := items - {REGISTRATION_DRAFT_KEY};
    }

    /** The stored counter, or 0 when none is stored. */
    method GetLoginAttempts() returns (attempts: nat)
      requires Valid()
      ensures attempts == AttemptsIn(items)
      ensures LOGIN_ATTEMPTS_KEY !in items ==> attempts == 0
    {
      if LOGIN_ATTEMPTS_KEY in items && items[LOGIN_ATTEMPTS_KEY].text != "" {
        ParseIntOfDigits(items[LOGIN_ATTEMPTS_KEY].text);
        attempts := ParseInt(items[LOGIN_ATTEMPTS_KEY].text).value;
      } else {
        attempts := 0;
      }
    }

    /** Read-modify-write of the counter: stores and returns one more than
        what was stored. */
    method IncrementLoginAttempts() returns (attempts: nat)
      requires Valid()
      modifies this
      ensures Valid()
      ensures attempts == old(AttemptsIn(items)) + 1 && AttemptsIn(items) == attempts
      ensures State() == WithAttempts(old(State()), attempts)
    {
      var current := GetLoginAttempts();
      attempts := current + 1;
      DigitsValueOfNatToDecimal(attempts);
      items := items[LOGIN_ATTEMPTS_KEY := Text(IntToString(attempts))];
    }

    method ResetLoginAttempts()
      requires Valid()
      modifies this
      ensures Valid() && State() == Without(old(State()), LOGIN_ATTEMPTS_KEY)
      ensures AttemptsIn(items) == 0
    {
      items := items - {LOGIN_ATTEMPTS_KEY};
    }

    method SetLockoutTime(timestamp: int)
      requires Valid()
      modifies this
      ensures Valid() && State() == WithLockout(old(State()), timestamp)
      ensures LockoutIn(items) == Some(timestamp)
    {
      DecimalOfIntToString(timestamp);
      items := items[LOCKOUT_UNTIL_KEY := Text(IntToString(timestamp))];
    }

    method GetLockoutTime() returns (timestamp: Option<int>)
      requires Valid()
      ensures timestamp == LockoutIn(items)
      ensures timestamp.Some? <==> LOCKOUT_UNTIL_KEY in items
    {
      if LOCKOUT_UNTIL_KEY in items && items[LOCKOUT_UNTIL_KEY].text != "" {
        ParseIntOfDecimal(items[LOCKOUT_UNTIL_KEY].text);
        timestamp := ParseInt(items[LOCKOUT_UNTIL_KEY].text);
      } else {
        timestamp := None;
      }
    }

    method ClearLockout()
      requires Valid()
      modifies this
      ensures Valid() && State() == Without(old(State()), LOCKOUT_UNTIL_KEY)
      ensures LockoutIn(items) == None
    {
      items := items - {LOCKOUT_UNTIL_KEY};
    }

    method SaveThemeMode(mode: ThemeMode)
      requires Valid()
      modifies this
      ensures Valid() && State() == WithTheme(old(State()), mode)
      ensures ThemeIn(items) == Some(mode.Name())
    {
      items := items[THEME_MODE_KEY := Text(mode.Name())];
    }

    method GetThemeMode() returns (mode: Option<string>)
      requires Valid()
      ensures mode == ThemeIn(items)
    {
      if THEME_MODE_KEY in items {
        mode := Some(items[THEME_MODE_KEY].text);
      } else {
        mode := None;
      }
    }
  }
}
