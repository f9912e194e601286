/** Records exchanged by the authentication service (src/types/auth.types.ts). */
module AuthTypes {
  import opened Wrappers

  datatype User = User(
    id: string,
    firstName: string,
    lastName: string,
    email: string,
    username: string,
    phoneNumber: string,
    country: string,
    dateOfBirth: string,
    createdAt: string)

  datatype RegistrationData = RegistrationData(
    firstName: string,
    lastName: string,
    email: string,
    username: string,
    password: string,
    confirmPassword: string,
    phoneNumber: string,
    country: string,
    dateOfBirth: string,
    agreeToTerms: bool)

  /** A partially filled sign-up form: every field may still be missing. */
  datatype RegistrationDraft = RegistrationDraft(
    firstName: Option<string>,
    lastName: Option<string>,
    email: Option<string>,
    username: Option<string>,
    password: Option<string>,
    confirmPassword: Option<string>,
    phoneNumber: Option<string>,
    country: Option<string>,
    dateOfBirth: Option<string>,
    agreeToTerms: Option<bool>)

  datatype LoginCredentials = LoginCredentials(emailOrUsername: string, password: string)

  datatype SessionData = SessionData(user: User, token: string, expiresAt: int)

  /** What the in-memory user directory keeps under each identifier. */
  datatype UserRecord = UserRecord(password: string, user: User)
}
