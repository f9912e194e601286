# Authentication core of a React Native sign-in app, in Dafny

This project models the authentication core of a mobile app: registration into
an in-memory user directory, login guarded by a persisted failed-attempt
counter and a 15-minute lockout after five failures, 24-hour sessions that are
saved, restored and cleared, the persistence layer these go through (a
key-value store plus a one-slot credential keychain), and the registration
form's field validators and password-strength meter.

The model follows the source's own form:

- `StorageService` (`storage.dfy`) is a class whose fields are the key-value
  store and the keychain slot. Each method reads, writes or removes one key,
  and its `ensures` gives the new state as a transition function of the old
  one (`WithAttempts`, `Without`, ...). The counters and timestamps are kept as
  decimal text, as the app keeps them. `parseInt` and `toString` are modelled
  character by character (`decimal.dfy`), and their round trip is proved.
- `AuthService` (`auth.dfy`) is a class holding the user directory and the
  storage service. `Login` performs the source's sequence of storage calls.
  It is proved to leave exactly the result and the state given by the outcome
  function `LoginOutcome`. The promises of login, restore, logout and
  registration are lemmas about these outcome functions
  (`auth_properties.dfy`).
- The validators (`validation.dfy`) are functions. Each of the four regular
  expressions is first written in the form of the pattern (`MatchesEmail`,
  ...). A lemma then characterises it in plain terms, and each validator's
  contract states the plain-terms condition. `GetPasswordStrength` is a method
  with the source's five sequential increments. It is proved to return the
  number of satisfied criteria.

The clock is a parameter. `now` is the millisecond timestamp that `Date.now()`
would return, and each operation uses one value of it.

Modules: `Wrappers` (Option), `Constants`, `AuthTypes` (the records of
src/types/auth.types.ts), `Chars` (the character classes of JavaScript regular expressions, and
`length` in UTF-16 code units), `Decimal`, `Storage`, `Auth`, `AuthProperties`,
`Validation`.

## Model

| member | source | states |
|---|---|---|
| Constants.StoreKeysDistinct | src/utils/constants.ts:1-8 | The five key-value store keys are pairwise distinct. |
| Decimal.DigitsValueOfNatToDecimal | src/services/storageService.ts:125 | The decimal text `toString` writes for a count denotes that count. |
| Decimal.TrimStartDropsSpace | src/services/storageService.ts:114 | The white-space skipping of `parseInt` removes exactly the longest leading run of white space: every character dropped is white space, and what remains does not start with white space. |
| Decimal.DigitPrefixIsLongest | src/services/storageService.ts:152 | The digits `parseInt` reads form the longest prefix of the text made only of decimal digits. |
| Decimal.ParseIntOfDigits | src/services/storageService.ts:114 | `parseInt(text, 10)` of a non-empty run of digits is the number the digits denote. |
| Decimal.ParseIntOfDecimal | src/services/storageService.ts:152 | `parseInt(text, 10)` of decimal text, with an optional minus sign, is the integer that text denotes. |
| Decimal.DecimalOfIntToString | src/services/storageService.ts:143 | `toString` of an integer is decimal text denoting that integer. This is JavaScript's text for integers below 2^53 in magnitude, which covers every timestamp and count the service writes. |
| Decimal.ParseIntOfIntToString | src/services/storageService.ts:141-157 | Round trip: `parseInt(n.toString(), 10)` is `n` for every integer `n`. As for `toString`, this holds for JavaScript integers below 2^53 in magnitude. |
| Storage.RemovedKeysReadAsDefault | src/services/storageService.ts:65-184 | After its key is removed (`clearSession`, `clearRegistrationDraft`, `resetLoginAttempts`, `clearLockout`), each read yields its default: no session, no draft, 0 attempts, no lockout. An absent theme key reads as no theme. The service never removes the theme key, so that clause covers only the state before any theme is saved. |
| Storage.WritesReadBack | src/services/storageService.ts:8-184 | A written session, draft or theme is read back exactly as written. Saving credentials fills the keychain slot and clearing empties it. |
| Storage.VaultKeepsLastPair | src/services/storageService.ts:8-41 | The keychain keeps one pair. A second save replaces the first and leaves the key-value store alone. |
| Storage.WriteLeavesOtherKeys | src/services/storageService.ts:56-184 | Writing one key leaves the keychain and the reads of every other key unchanged. |
| Storage.RemoveLeavesOtherKeys | src/services/storageService.ts:75-165 | Removing one key leaves the keychain and the reads of every other key unchanged. |
| Storage.StorageService.SaveCredentials | src/services/storageService.ts:8-23 | Stores the pair in the keychain slot, replacing any earlier pair, and reports success. |
| Storage.StorageService.GetCredentials | src/services/storageService.ts:25-41 | Returns the pair last saved, or nothing. |
| Storage.StorageService.ClearCredentials | src/services/storageService.ts:43-53 | Empties the keychain slot and reports success. |
| Storage.StorageService.SaveSession | src/services/storageService.ts:56-63 | Stores the session under its key. The session then reads back as written. |
| Storage.StorageService.GetSession | src/services/storageService.ts:65-73 | Returns the stored session, or nothing when none is stored. |
| Storage.StorageService.ClearSession | src/services/storageService.ts:75-81 | Removes the session, so no session reads back. |
| Storage.StorageService.SaveRegistrationDraft | src/services/storageService.ts:84-90 | Stores the draft, which then reads back as written. |
| Storage.StorageService.GetRegistrationDraft | src/services/storageService.ts:92-100 | Returns the stored draft, or nothing. |
| Storage.StorageService.ClearRegistrationDraft | src/services/storageService.ts:102-108 | Removes the draft, so no draft reads back. |
| Storage.StorageService.GetLoginAttempts | src/services/storageService.ts:111-119 | Returns 0 when no counter is stored, otherwise the count the stored text denotes. |
| Storage.StorageService.IncrementLoginAttempts | src/services/storageService.ts:121-131 | Read-modify-write. Stores the previous count plus one as decimal text, returns it, and changes no other key. |
| Storage.StorageService.ResetLoginAttempts | src/services/storageService.ts:133-139 | Removes the counter, so the count then reads 0. |
| Storage.StorageService.SetLockoutTime | src/services/storageService.ts:141-147 | Stores the timestamp as decimal text, which reads back as that timestamp. |
| Storage.StorageService.GetLockoutTime | src/services/storageService.ts:149-157 | Returns the stored timestamp (parsed back from its text), or nothing when none is stored. |
| Storage.StorageService.ClearLockout | src/services/storageService.ts:159-165 | Removes the timestamp, so no lockout reads back. |
| Storage.StorageService.SaveThemeMode | src/services/storageService.ts:168-174 | Stores "light" or "dark" under the theme key. |
| Storage.StorageService.GetThemeMode | src/services/storageService.ts:176-184 | Returns the stored theme text, or nothing. |
| Auth.RemainingMinutes | src/services/authService.ts:36 | `Math.ceil(ms / 60000)`: the least number of whole minutes that covers `ms`. |
| Auth.LockoutStatusAt | src/services/authService.ts:101-108 | Locked exactly when a lockout is stored and `now` is before it. The minutes are reported exactly when locked, and are then at least 1. |
| Auth.AuthService.constructor | src/services/authService.ts:6 | The directory starts empty. |
| Auth.AuthService.Register | src/services/authService.ts:8-29 | Copies the profile fields into the new user, with id = decimal text of `now`. Files one record under the e-mail address and under the username. Removes the registration draft. |
| Auth.AuthService.Login | src/services/authService.ts:32-85 | The source's sequence of storage calls yields exactly the result and the persisted state of `LoginOutcome`. |
| Auth.AuthService.Logout | src/services/authService.ts:87-89 | Removes the session and nothing else. |
| Auth.AuthService.RestoreSession | src/services/authService.ts:91-99 | Yields the result and state of `RestoreOutcome`. |
| Auth.AuthService.CheckLockoutStatus | src/services/authService.ts:101-108 | Changes nothing. Reports `LockoutStatusAt` of the stored state. |
| AuthProperties.LoginWhileLocked | src/services/authService.ts:34-41 | While a stored lockout lies in the future, login reports ceil((until - now) / 60000) minutes, at least 1. It changes no state: nothing is counted and the session stays. |
| AuthProperties.ClearExpiredLockoutEffect | src/services/authService.ts:43-47 | An expired lockout is removed and the counter reset to 0. Otherwise nothing changes. Keychain, session, draft and theme are untouched. |
| AuthProperties.LoginSuccess | src/services/authService.ts:50-67 | Right credentials and no lockout in force: the result is the directory's user, attempts read 0, no lockout, a session for that user expiring at now + 86400000, the keychain holding exactly the supplied credentials, and the draft and theme unchanged. |
| AuthProperties.RecordFailureEffect | src/services/authService.ts:70-84 | A counted failure raises the counter by one. At 5 or more it sets the lockout to now + 900000. Below 5 it reports 5 minus the count. Nothing else changes. |
| AuthProperties.LoginFailure | src/services/authService.ts:43-84 | Wrong credentials and no lockout in force: the shared counter rises by exactly one, from 0 if an expired lockout was just cleared. Reaching 5 sets a lockout at now + 900000; below 5 the result reports 5 minus the count. Session and keychain are untouched. |
| AuthProperties.LoginAfterExpiry | src/services/authService.ts:44-67 | Once a lockout has run out, the right password succeeds at once, and a wrong one counts as the first failure (4 tries left, no lockout). |
| AuthProperties.LockoutMinutesInRange | src/services/authService.ts:73-74 | For a lockout set at time t and any `now` with t <= now before it ends, 1 to 15 minutes remain. |
| AuthProperties.StatusAgreesWithLogin | src/services/authService.ts:101-108 | `checkLockoutStatus` reports locked exactly when a login at the same instant is refused for the lockout, with the same minutes. Such a refusal leaves the state as it was. |
| AuthProperties.FailuresCountDown | src/services/authService.ts:71-84 | From k counted failures and no lockout, each further failure below the limit (under any identifier) reports 4 - k, 3 - k, ... tries left and sets no lockout. |
| AuthProperties.FailureAtLimit | src/services/authService.ts:71-79 | A failure with 4 failures counted and no lockout stored starts a lockout at now + 900000. |
| AuthProperties.FiveFailuresStartLockout | src/services/authService.ts:71-84 | From a clean state, five failures report 4, 3, 2 and 1 tries left, then start a lockout at the fifth call's time + 900000. |
| AuthProperties.FifthFailureLocksOut | src/services/authService.ts:35-41 | After those five failures, any login before the lockout ends is refused with 1 to 15 minutes left, even with the right password, and changes nothing. |
| AuthProperties.RestoreYieldsLiveSession | src/services/authService.ts:91-99 | `restoreSession` yields the stored user exactly when a stored session expires after `now`, and then changes nothing. Otherwise it yields nothing and leaves no session stored. |
| AuthProperties.LogoutThenRestore | src/services/authService.ts:87-99 | After logout, restoring yields nothing, at any time. |
| AuthProperties.LoginThenRestore | src/services/authService.ts:57-62 | A session issued by a login at t restores the user before t + 24 h and is discarded from then on. |
| AuthProperties.EnrollFilesBothKeys | src/services/authService.ts:23-24 | Registration maps the e-mail address and the username to the same record. It adds no other key and leaves every other identifier's record unchanged. |
| AuthProperties.RegisteredUserCanLogIn | src/services/authService.ts:23-24 | A user who has just registered logs in with the registered password under either identifier, unless a lockout is in force. |
| Validation.EmailShape | src/utils/constants.ts:14 | The e-mail pattern accepts exactly the strings that have no white space and exactly one '@' with something before it, and whose part after the '@' has a '.' that is neither its first nor its last character. |
| Validation.PasswordShape | src/utils/constants.ts:13 | The password pattern accepts exactly the strings with at least 8 characters, all of them letters, digits or @$!%*?&, including at least one lower-case letter, one upper-case letter, one digit and one special character. |
| Validation.PhoneShape | src/utils/constants.ts:15 | The phone pattern accepts exactly the strings whose part after an optional leading '+' is 10 or more digits, white-space characters, '-', '(' or ')'. |
| Validation.BlankPhoneMatches | src/utils/constants.ts:15 | Ten spaces match the phone pattern, because its class includes white space. |
| Validation.ValidateEmail | src/utils/validation.ts:3-7 | Required exactly for the empty string. Otherwise no error exactly when the address is well formed as in `EmailShape`, else EmailInvalid. |
| Validation.ValidatePassword | src/utils/validation.ts:9-13 | Required exactly for the empty string. Otherwise no error exactly when the conditions of `PasswordShape` hold, else PasswordWeak. |
| Validation.ValidateConfirmPassword | src/utils/validation.ts:15-19 | No error exactly when the confirmation is non-empty and equal to the password. Required exactly when the confirmation is empty. PasswordMismatch exactly when it is non-empty and different. |
| Validation.ValidatePhoneNumber | src/utils/validation.ts:21-25 | Required exactly for the empty string. Otherwise no error exactly when the number is an optional '+' followed by 10 or more phone characters, else PhoneInvalid. |
| Validation.ValidateUsername | src/utils/validation.ts:27-31 | Required exactly for the empty string. Otherwise no error exactly when the name is 3 to 20 letters, digits or underscores, else UsernameInvalid. |
| Validation.UsernameIsNeverEmail | src/utils/validation.ts:3-31 | A valid username is never a valid e-mail address. So the two keys `register` files a validated user under are distinct. |
| Validation.ValidateRequired | src/utils/validation.ts:33-36 | Required exactly for the falsy values, the empty text and `false`. Otherwise no error. |
| Validation.EmptyFieldIsRequired | src/utils/validation.ts:4-34 | Each validator reports Required for an empty field before checking the format. `validateRequired(false)` reports Required too. |
| Chars.Utf16Length | src/utils/validation.ts:40 | `s.length`, the number of UTF-16 code units, is between the number of characters and twice that number. |
| Chars.Utf16LengthOfBmp | src/utils/validation.ts:40 | For text with no character above U+FFFF, `s.length` is the number of characters. |
| Chars.AstralCharsCountTwice | src/utils/validation.ts:40 | A character above U+FFFF counts two units: "aA" followed by three U+1F600 has five characters and `length` 8. |
| Validation.SatisfiedCount | src/utils/validation.ts:39-44 | The number of strength criteria a password meets is one point for each met criterion, out of `password.length` >= 8 (counted in UTF-16 code units), a lower-case letter, an upper-case letter, a digit and one of @$!%*?&. |
| Validation.GetPasswordStrength | src/utils/validation.ts:38-49 | The strength is the number of criteria met, at most 5, with length counted in UTF-16 code units. The label is Weak exactly when the strength is at most 2, Medium exactly when it is 3, and Strong exactly when it is at least 4. |
| Validation.AcceptedPasswordIsStrong | src/utils/validation.ts:9-13 | Every password `validatePassword` accepts meets all five strength criteria and so scores 5 (Strong). |
| Validation.AstralPasswordScoresThree | src/utils/validation.ts:38-49 | "aA" followed by three U+1F600 is long enough, because `length` counts code units. It has a lower-case and an upper-case letter, so it scores 3 (Medium). |

## Left out

- Storage failures are not modelled. The `catch` branches of every storage operation (log, then return 0, null or false, or rethrow in `saveSession`) are left out, so `SaveCredentials` and `ClearCredentials` always report success.
- AsyncStorage and the keychain are an in-memory map and one slot. JSON text is represented by the record it encodes, so `JSON.stringify`/`JSON.parse` are taken to round-trip.
- Storage.WellFormed: the model assumes each key holds what the service itself writes there. Text written under these keys by other code (e.g. a counter that `parseInt` reads as NaN) is outside the model.
- A stored lockout timestamp of 0 is falsy in JavaScript, so `login` and `checkLockoutStatus` treat it as no lockout. The model keeps this (`LockoutActive`, `LockoutExpired`).
- `Date.now()` is the parameter `now`, one value per call, although `login` reads the clock several times. `new Date().toISOString()` is the parameter `createdAt`, treated as opaque text.
- The user id and the session token are derived from `now`. The source does not guarantee that they are unique, and the model claims no uniqueness.
- Auth.AuthService.Login: each service call is modelled as finishing before the next one begins. In the source every operation is `async` and can interleave with another at each `await`. For example, two overlapping failed logins can both read the counter as n in `incrementLoginAttempts` and both write n + 1, losing a failure. `LoginFailure`, `FailuresCountDown`, `FiveFailuresStartLockout` and `RunLogins` describe calls that do not overlap.
- Decimal.IntToString: numbers are unbounded integers here, not IEEE doubles. The model writes and reads the same text as JavaScript for integers below 2^53 in magnitude. That range covers every timestamp (`Date.now()` is at most 8.64e15) and every count the service writes. Above 2^53 JavaScript prints the shortest digits that round back to the double (2^60 prints as 1152921504606847000), and `parseInt` rounds what it reads; neither is modelled. Exponent notation from 1e21 on (where `parseInt("1e+21", 10)` is 1) is not modelled either.
- The directory and the storage service are process-wide statics in the source. Here they are the fields of one `AuthService` object and one `StorageService` object.
- Login results and validation errors are datatypes. The remaining minutes or attempts are carried as numbers instead of formatted message strings.
- The colour returned with each password-strength label is not modelled.
- Only the four regular expressions used are modelled, as predicates. A general regular-expression engine is not modelled.
- src/services/biometricService.ts and src/store/AuthContext.tsx are not part of this model: they are foreign library calls and React state wiring.
