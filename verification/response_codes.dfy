/**
 * The error-code enumerations the backend reports (`EC.Validation` and
 * `EC.AuthFailed`). Each member is a string enum: `Value()` is the string it
 * carries and `Name()` the attribute name it is looked up by.
 */
module ResponseCodes {
  import opened Wrappers

  /** `EC.Validation` */
  datatype ValidationCode =
    | ValidationGeneric
    | Required
    | Blank
    | UsernameTooShort
    | UsernameTooLong
    | UsernameInvalidFormat
    | InvalidEmail
    | PasswordTooShort
    | PasswordTooLong
    | PasswordMismatch
    | EmailTaken
    | UsernameTaken
    | PasswordSameAsOld
  {
    function Value(): string
    {
      match this
      case ValidationGeneric => "GENERIC_ERROR"
      case Required => "REQUIRED"
      case Blank => "BLANK"
      case UsernameTooShort => "USERNAME_TOO_SHORT"
      case UsernameTooLong => "USERNAME_TOO_LONG"
      case UsernameInvalidFormat => "USERNAME_INVALID_FORMAT"
      case InvalidEmail => "INVALID_EMAIL"
      case PasswordTooShort => "PASSWORD_TOO_SHORT"
      case PasswordTooLong => "PASSWORD_TOO_LONG"
      case PasswordMismatch => "PASSWORD_MISMATCH"
      case EmailTaken => "EMAIL_TAKEN"
      case UsernameTaken => "USERNAME_TAKEN"
      case PasswordSameAsOld => "PASSWORD_SAME_AS_OLD"
    }
  }

  /** `EC.AuthFailed` */
  datatype AuthFailedCode =
    | AuthGeneric
    | InvalidCredentials
    | AccountDisabled
    | RefreshTokenMissing
    | InvalidPassword
  {
    function Name(): string
    {
      match this
      case AuthGeneric => "GENERIC"
      case InvalidCredentials => "INVALID_CREDENTIALS"
      case AccountDisabled => "ACCOUNT_DISABLED"
      case RefreshTokenMissing => "REFRESH_TOKEN_MISSING"
      case InvalidPassword => "INVALID_PASSWORD"
    }

    function Value(): string
    {
      match this
      case AuthGeneric => "GENERIC_ERROR"
      case _ => Name()
    }
  }

  /**
   * Attribute access `EC.AuthFailed.<name>`: the member of that name, or
   * `None` when the enumeration has no such member (Python then raises
   * AttributeError).
   */
  function AuthFailedMember(name: string): (r: Option<AuthFailedCode>)
    ensures r.Some? ==> r.value.Name() == name
    ensures r.None? ==> forall c: AuthFailedCode :: c.Name() != name
  {
    if name == "GENERIC" then Some(AuthGeneric)
    else if name == "INVALID_CREDENTIALS" then Some(InvalidCredentials)
    else if name == "ACCOUNT_DISABLED" then Some(AccountDisabled)
    else if name == "REFRESH_TOKEN_MISSING" then Some(RefreshTokenMissing)
    else if name == "INVALID_PASSWORD" then Some(InvalidPassword)
    else None
  }
}
