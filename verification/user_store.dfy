/**
 * What the serializers and validators need from Django: the user table,
 * the password hasher, the e-mail syntax validator, the username-format
 * validator and the token issuer. None of their code is part of this model;
 * each is a function-valued field of `Env`, and every query, password check,
 * account creation and token issuance a serializer performs is recorded as a
 * `Call`, so that contracts can say which of them happened and in what order.
 */
module UserStore {
  import opened Wrappers
  import opened ErrorHelpers

  datatype User = User(pk: int, username: string, email: Option<string>, isActive: bool)

  datatype TokenPair = TokenPair(refresh: string, access: string)

  datatype Env = Env(
    /** `django.core.validators.validate_email` accepts the string */
    isValidEmail: string -> bool,
    /** `User.objects.get(email__iexact=…)`, `None` for DoesNotExist */
    userByEmail: string -> Option<User>,
    /** `User.objects.filter(username__iexact=…).first()` */
    firstUserByUsername: string -> Option<User>,
    /** `User.objects.filter(username__iexact=…).exists()` */
    usernameExists: Option<string> -> bool,
    /** `User.objects.filter(email__iexact=…).exists()` */
    emailExists: string -> bool,
    /** `user.check_password(…)` */
    checkPassword: (User, string) -> bool,
    /** `validate_username_format(…)`, whose code is not part of this model */
    usernameFormatErrors: Option<string> -> seq<ErrDict>,
    /** `User.objects.create_user(username=…, email=…, password=…)` */
    createUser: (Option<string>, Option<string>, Option<string>) -> User,
    /** `RefreshToken.for_user(user)` and its access token */
    tokensFor: User -> TokenPair
  )

  /** One interaction with the database, the hasher or the token issuer. */
  datatype Call =
    | GetUserByEmail(identifier: string)
    | FilterUserByUsername(identifier: string)
    | UsernameExistsQuery(maybeUsername: Option<string>)
    | EmailExistsQuery(address: string)
    | CheckPassword(pk: int)
    | CreateUser(newUsername: Option<string>, newEmail: Option<string>)
    | IssueTokens(pk: int)
  {
    /** Calls that change the system: a new account or a new session. */
    predicate Mutates()
    {
      CreateUser? || IssueTokens?
    }
  }
}
