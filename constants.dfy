/** Storage key names and the lockout tuning constants of the app
    (src/utils/constants.ts). */
module Constants {
  /** Keychain service name under which the one credential pair is kept. */
  const CREDENTIALS_KEY: string := "app_credentials"
  const SESSION_KEY: string := "app_session"
  const REGISTRATION_DRAFT_KEY: string := "registration_draft"
  const LOGIN_ATTEMPTS_KEY: string := "login_attempts"
  const LOCKOUT_UNTIL_KEY: string := "lockout_until"
  const THEME_MODE_KEY: string := "theme_mode"

  const MAX_LOGIN_ATTEMPTS: nat := 5
  /** 15 minutes, in milliseconds. */
  const LOCKOUT_DURATION_MS: nat := 15 * 60 * 1000
  /** Lifetime of a session issued by a successful login: 24 hours, in milliseconds. */
  const SESSION_DURATION_MS: nat := 24 * 60 * 60 * 1000
  /** Milliseconds in a minute, the unit of the remaining-lockout report. */
  const MS_PER_MINUTE: nat := 60000

  /** The key-value store keys, which are pairwise distinct, so that an
      operation on one of them leaves the others alone. */
  lemma StoreKeysDistinct()
    ensures |{SESSION_KEY, REGISTRATION_DRAFT_KEY, LOGIN_ATTEMPTS_KEY, LOCKOUT_UNTIL_KEY, THEME_MODE_KEY}| == 5
  {
    assert SESSION_KEY[0] == 'a' && REGISTRATION_DRAFT_KEY[0] == 'r' && THEME_MODE_KEY[0] == 't';
    assert LOGIN_ATTEMPTS_KEY[1] == 'o' && LOCKOUT_UNTIL_KEY[1] == 'o' && LOGIN_ATTEMPTS_KEY[2] != LOCKOUT_UNTIL_KEY[2];
  }
}
