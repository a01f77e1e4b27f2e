/**
 * The `validate` methods of LoginSerializer, RegisterSerializer,
 * DeleteAccountSerializer and ChangePasswordSerializer. Each builds its error
 * map step by step, drops the empty lists, raises ValidationError when
 * anything is left, and only then consults the user table, the password
 * hasher or the token issuer.
 */
module Serializers {
  import opened Wrappers
  import opened ResponseCodes
  import opened ErrorHelpers
  import opened UserStore
  import opened Validators
  import opened SerializerFields

  /** The body a successful login or registration returns. */
  datatype AuthPayload = AuthPayload(refreshToken: string, accessToken: string,
                                     userId: int, username: string, email: Option<string>)

  function Payload(user: User, tokens: TokenPair): AuthPayload
  {
    AuthPayload(tokens.refresh, tokens.access, user.pk, user.username, user.email)
  }

  // ---------------------------------------------------------------- Login

  const LOGIN_FIELDS := ["identifier", "password"]

  /** The error map LoginSerializer.validate raises, before empty lists are dropped. */
  function LoginErrorMap(attrs: Attrs): FieldErrors
  {
    map["identifier" := BaseFieldErrors(attrs, "identifier", Some(IDENTIFIER_RULE)),
        "password" := BaseFieldErrors(attrs, "password", Some(PASSWORD_RULE))]
  }

  function LoginErrors(attrs: Attrs): FieldErrors
  {
    RemoveEmptyListFields(LoginErrorMap(attrs))
  }

  /** No login error is left exactly when both fields are present, truthy and of allowed length. */
  lemma LoginErrorsEmpty(attrs: Attrs)
    ensures LoginErrors(attrs) == map[] <==>
              Truthy(Get(attrs, "identifier")) && MIN_IDENTIFIER_LEN <= |Get(attrs, "identifier").value| <= MAX_IDENTIFIER_LEN
              && Truthy(Get(attrs, "password")) && MIN_PASSWORD_LEN <= |Get(attrs, "password").value| <= MAX_PASSWORD_LEN
  {
    var m := LoginErrorMap(attrs);
    RemoveEmptyListFieldsEntry(m, "identifier");
    RemoveEmptyListFieldsEntry(m, "password");
    BaseFieldCases(attrs, "identifier", Some(IDENTIFIER_RULE));
    BaseFieldCases(attrs, "password", Some(PASSWORD_RULE));
    if m["identifier"] == [] && m["password"] == [] {
      assert forall f :: f in LoginErrors(attrs) ==> f in m && m[f] != [];
    }
  }

  /** Every login field carries at most one entry, and a missing one exactly REQUIRED. */
  lemma LoginFieldShape(attrs: Attrs, field: string)
    requires field in LOGIN_FIELDS
    ensures field in LoginErrors(attrs) ==> |LoginErrors(attrs)[field]| == 1
    ensures field !in attrs ==> field in LoginErrors(attrs) && LoginErrors(attrs)[field] == [Err(Required.Value())]
  {
    BaseFieldCases(attrs, field, Some(if field == "identifier" then IDENTIFIER_RULE else PASSWORD_RULE));
  }

  /**
   * The post-validation chain: look the identifier up as an e-mail when it
   * is one, fall back to the username, then check the password, then whether
   * the account is active, and only then issue tokens. An unknown user and a
   * wrong password are reported identically; ACCOUNT_DISABLED only after the
   * password has checked out.
   */
  function LoginAuthChain(identifier: string, password: string, env: Env): (result: (Outcome<AuthPayload>, seq<Call>))
    ensures var (r, calls) := result;
            && (env.isValidEmail(identifier) <==> |calls| > 0 && calls[0] == GetUserByEmail(identifier))
            && (FilterUserByUsername(identifier) in calls <==> !env.isValidEmail(identifier) || env.userByEmail(identifier).None?)
            && !r.Invalid?
            && (r.Validated? ==> |calls| > 0 && calls[|calls| - 1] == IssueTokens(r.value.userId))
            && (forall c :: c in calls && c.Mutates() ==> r.Validated?)
  {
    var byEmail := if env.isValidEmail(identifier) then env.userByEmail(identifier) else None;
    var emailCalls := if env.isValidEmail(identifier) then [GetUserByEmail(identifier)] else [];
    var user := if byEmail.Some? then byEmail else env.firstUserByUsername(identifier);
    var lookups := if byEmail.Some? then emailCalls else emailCalls + [FilterUserByUsername(identifier)];
    if user.None? then
      (AuthFailed(OneError("_global", InvalidCredentials.Value())), lookups)
    else
      var u := user.value;
      var checked := lookups + [CheckPassword(u.pk)];
      if !env.checkPassword(u, password) then
        (AuthFailed(OneError("_global", InvalidCredentials.Value())), checked)
      else if !u.isActive then
        (AuthFailed(OneError("_global", AccountDisabled.Value())), checked)
      else
        (Validated(Payload(u, env.tokensFor(u))), checked + [IssueTokens(u.pk)])
  }

  /** The user the login chain settles on: by e-mail first, then by username. */
  function LoginUser(identifier: string, env: Env): Option<User>
  {
    if env.isValidEmail(identifier) && env.userByEmail(identifier).Some? then env.userByEmail(identifier)
    else env.firstUserByUsername(identifier)
  }

  /** The chain's verdict in terms of the user it settles on. */
  lemma LoginVerdict(identifier: string, password: string, env: Env)
    ensures var r := LoginAuthChain(identifier, password, env).0;
            var u := LoginUser(identifier, env);
            && (r == AuthFailed(OneError("_global", InvalidCredentials.Value())) <==> u.None? || !env.checkPassword(u.value, password))
            && (r == AuthFailed(OneError("_global", AccountDisabled.Value())) <==>
                  u.Some? && env.checkPassword(u.value, password) && !u.value.isActive)
            && (r.Validated? <==> u.Some? && env.checkPassword(u.value, password) && u.value.isActive)
            && (r.Validated? ==> r.value == Payload(u.value, env.tokensFor(u.value)))
  {
    assert OneError("_global", InvalidCredentials.Value()) != OneError("_global", AccountDisabled.Value()) by {
      assert Codes(OneError("_global", InvalidCredentials.Value())["_global"]) == ["INVALID_CREDENTIALS"];
    }
  }

  /** The error map the shared passes and the two LENGTH steps of LoginSerializer.validate build. */
  function LoginSteps(attrs: Attrs): FieldErrors
  {
    var passes := PassesMap(attrs, LOGIN_FIELDS);
    var afterIdentifier := WithLength(passes, "identifier", Get(attrs, "identifier"), IDENTIFIER_RULE);
    WithLength(afterIdentifier, "password", Get(attrs, "password"), PASSWORD_RULE)
  }

  lemma LoginStepsKeys(attrs: Attrs)
    ensures forall f :: f in LoginSteps(attrs) <==> f in LoginErrorMap(attrs)
  {
    var passes := PassesMap(attrs, LOGIN_FIELDS);
    var afterIdentifier := WithLength(passes, "identifier", Get(attrs, "identifier"), IDENTIFIER_RULE);
    WithLengthKeys(passes, "identifier", Get(attrs, "identifier"), IDENTIFIER_RULE);
    WithLengthKeys(afterIdentifier, "password", Get(attrs, "password"), PASSWORD_RULE);
  }

  lemma LoginStepsIdentifier(attrs: Attrs)
    ensures "identifier" in LoginSteps(attrs)
    ensures LoginSteps(attrs)["identifier"] == LoginErrorMap(attrs)["identifier"]
  {
    var passes := PassesMap(attrs, LOGIN_FIELDS);
    var afterIdentifier := WithLength(passes, "identifier", Get(attrs, "identifier"), IDENTIFIER_RULE);
    PassesMapEntry(attrs, LOGIN_FIELDS, "identifier");
    LengthAfterPasses(passes, attrs, "identifier", IDENTIFIER_RULE);
    WithLengthFrame(afterIdentifier, "password", Get(attrs, "password"), PASSWORD_RULE, "identifier");
  }

  lemma LoginStepsPassword(attrs: Attrs)
    ensures "password" in LoginSteps(attrs)
    ensures LoginSteps(attrs)["password"] == LoginErrorMap(attrs)["password"]
  {
    var passes := PassesMap(attrs, LOGIN_FIELDS);
    var afterIdentifier := WithLength(passes, "identifier", Get(attrs, "identifier"), IDENTIFIER_RULE);
    PassesMapEntry(attrs, LOGIN_FIELDS, "password");
    WithLengthFrame(passes, "identifier", Get(attrs, "identifier"), IDENTIFIER_RULE, "password");
    LengthAfterPasses(afterIdentifier, attrs, "password", PASSWORD_RULE);
  }

  /** The login error map is what the shared passes and the two LENGTH steps build. */
  lemma LoginErrorMapSteps(attrs: Attrs)
    ensures LoginErrorMap(attrs) == LoginSteps(attrs)
  {
    var steps := LoginSteps(attrs);
    var spec := LoginErrorMap(attrs);
    assert forall f :: f in steps <==> f in spec by {
      LoginStepsKeys(attrs);
    }
    assert forall f | f in steps :: steps[f] == spec[f] by {
      LoginStepsKeys(attrs);
      LoginStepsIdentifier(attrs);
      LoginStepsPassword(attrs);
    }
    FieldErrorsExtensional(spec, steps);
  }

  /** The login errors are what the steps of the serializer leave once empty lists are dropped. */
  lemma LoginErrorsSteps(attrs: Attrs)
    ensures LoginErrors(attrs) == RemoveEmptyListFields(LoginSteps(attrs))
  {
    LoginErrorMapSteps(attrs);
  }

  /** The field checks of LoginSerializer.validate, up to `remove_empty_list_fields`. */
  method LoginFieldChecks(attrs: Attrs) returns (errors: FieldErrors)
    ensures errors == LoginErrors(attrs)
  {
    // REQUIRED, BLANK
    errors := RequiredBlankPasses(attrs, LOGIN_FIELDS);
    // LENGTH
    errors := LengthStep(errors, "identifier", Get(attrs, "identifier"), IDENTIFIER_RULE);
    errors := LengthStep(errors, "password", Get(attrs, "password"), PASSWORD_RULE);
    LoginErrorsSteps(attrs);
    errors := RemoveEmptyListFields(errors);
  }

  /**
   * LoginSerializer.validate. A payload with any field error raises
   * ValidationError with exactly the non-empty fields and touches nothing
   * else; otherwise the authentication chain decides.
   */
  method LoginValidate(attrs: Attrs, env: Env) returns (r: Outcome<AuthPayload>, calls: seq<Call>)
    ensures r.Invalid? <==> LoginErrors(attrs) != map[]
    ensures r.Invalid? ==> r.errors == LoginErrors(attrs) && calls == []
    ensures !r.Invalid? ==> Truthy(Get(attrs, "identifier")) && Truthy(Get(attrs, "password"))
                            && (r, calls) == LoginAuthChain(Get(attrs, "identifier").value, Get(attrs, "password").value, env)
  {
    var errors := LoginFieldChecks(attrs);
    if errors != map[] {
      return Invalid(errors), [];
    }
    LoginErrorsEmpty(attrs);
    var chain := LoginAuthChain(Get(attrs, "identifier").value, Get(attrs, "password").value, env);
    r, calls := chain.0, chain.1;
  }

  // ------------------------------------------------------------- Register

  const REGISTER_FIELDS := ["username", "password", "password_confirm"]

  /** What the username collects: the shared checks, then uniqueness, then the format rules. */
  function RegisterUsernameErrors(attrs: Attrs, env: Env): seq<ErrDict>
  {
    var username := Get(attrs, "username");
    BaseFieldErrors(attrs, "username", Some(IDENTIFIER_RULE))
    + ValidateUsernameUnique(username, env) + env.usernameFormatErrors(username)
  }

  /** What the confirmation collects: required and blank, then the match when both passwords are truthy. */
  function RegisterConfirmErrors(attrs: Attrs): seq<ErrDict>
  {
    var password := Get(attrs, "password");
    var passwordConfirm := Get(attrs, "password_confirm");
    BaseFieldErrors(attrs, "password_confirm", None)
    + (if Truthy(password) && Truthy(passwordConfirm) then ValidatePasswordMatch(password, passwordConfirm) else [])
  }

  /** The error map RegisterSerializer.validate raises, before empty lists are dropped. */
  function RegisterErrorMap(attrs: Attrs, env: Env): FieldErrors
  {
    map["username" := RegisterUsernameErrors(attrs, env),
        "password" := BaseFieldErrors(attrs, "password", Some(PASSWORD_RULE)),
        "password_confirm" := RegisterConfirmErrors(attrs),
        "email" := EmailRegisterErrors(Get(attrs, "email"), env)]
  }

  function RegisterErrors(attrs: Attrs, env: Env): FieldErrors
  {
    RemoveEmptyListFields(RegisterErrorMap(attrs, env))
  }

  /** The user-table queries the validation phase of registration makes. */
  function RegisterCheckCalls(attrs: Attrs, env: Env): seq<Call>
  {
    [UsernameExistsQuery(Get(attrs, "username"))] + EmailRegisterCalls(Get(attrs, "email"), env)
  }

  /** The e-mail is optional: it is never REQUIRED nor BLANK, only INVALID_EMAIL or EMAIL_TAKEN. */
  lemma RegisterEmailEntry(attrs: Attrs, env: Env)
    ensures var codes := Codes(Entry(RegisterErrors(attrs, env), "email"));
            codes == [] || codes == ["INVALID_EMAIL"] || codes == ["EMAIL_TAKEN"]
    ensures !Truthy(Get(attrs, "email")) ==> "email" !in RegisterErrors(attrs, env)
  {
    RemoveEmptyListFieldsEntry(RegisterErrorMap(attrs, env), "email");
    EmailRegisterCases(Get(attrs, "email"), env);
  }

  /** The password gets at most one entry: REQUIRED, BLANK or one length code. */
  lemma RegisterPasswordEntry(attrs: Attrs, env: Env)
    ensures |Entry(RegisterErrors(attrs, env), "password")| <= 1
  {
    RemoveEmptyListFieldsEntry(RegisterErrorMap(attrs, env), "password");
    BaseFieldCases(attrs, "password", Some(PASSWORD_RULE));
  }

  /**
   * A password mismatch is reported only when both passwords are truthy,
   * and then exactly when they differ, as the only entry of `password_confirm`.
   */
  lemma RegisterConfirmCases(attrs: Attrs)
    ensures "password_confirm" !in attrs ==> RegisterConfirmErrors(attrs) == [Err(Required.Value())]
    ensures !(Truthy(Get(attrs, "password")) && Truthy(Get(attrs, "password_confirm"))) ==>
              Err(PasswordMismatch.Value()) !in RegisterConfirmErrors(attrs)
    ensures Truthy(Get(attrs, "password")) && Truthy(Get(attrs, "password_confirm")) ==>
              (RegisterConfirmErrors(attrs) == [] <==> Get(attrs, "password") == Get(attrs, "password_confirm"))
              && (RegisterConfirmErrors(attrs) == [] || RegisterConfirmErrors(attrs) == [Err(PasswordMismatch.Value())])
  {
    BaseFieldCases(attrs, "password_confirm", None);
    if !(Truthy(Get(attrs, "password")) && Truthy(Get(attrs, "password_confirm"))) {
      assert CodeOf(Err(Blank.Value())) != CodeOf(Err(PasswordMismatch.Value()));
      assert CodeOf(Err(Required.Value())) != CodeOf(Err(PasswordMismatch.Value()));
    }
  }

  /** The same, read off the error map the serializer raises. */
  lemma RegisterConfirmEntry(attrs: Attrs, env: Env)
    ensures Entry(RegisterErrors(attrs, env), "password_confirm") == RegisterConfirmErrors(attrs)
    ensures "password_confirm" !in attrs ==> RegisterErrors(attrs, env)["password_confirm"] == [Err(Required.Value())]
  {
    RemoveEmptyListFieldsEntry(RegisterErrorMap(attrs, env), "password_confirm");
    RegisterConfirmCases(attrs);
  }

  /** A missing username gets REQUIRED followed only by the uniqueness and format results. */
  lemma RegisterMissingUsername(attrs: Attrs, env: Env)
    requires "username" !in attrs
    ensures "username" in RegisterErrors(attrs, env)
    ensures RegisterErrors(attrs, env)["username"]
            == [Err(Required.Value())] + ValidateUsernameUnique(None, env) + env.usernameFormatErrors(None)
  {
    RemoveEmptyListFieldsEntry(RegisterErrorMap(attrs, env), "username");
    BaseFieldCases(attrs, "username", Some(IDENTIFIER_RULE));
  }

  /** No register error is left only when username and both passwords are present, truthy and equal. */
  lemma RegisterErrorsEmpty(attrs: Attrs, env: Env)
    requires RegisterErrors(attrs, env) == map[]
    ensures Truthy(Get(attrs, "username")) && Truthy(Get(attrs, "password")) && Truthy(Get(attrs, "password_confirm"))
    ensures Get(attrs, "password") == Get(attrs, "password_confirm")
  {
    var m := RegisterErrorMap(attrs, env);
    RemoveEmptyListFieldsEntry(m, "username");
    RemoveEmptyListFieldsEntry(m, "password");
    RemoveEmptyListFieldsEntry(m, "password_confirm");
    assert BaseFieldErrors(attrs, "username", Some(IDENTIFIER_RULE)) == [] by {
      assert |RegisterUsernameErrors(attrs, env)| == 0;
    }
    assert BaseFieldErrors(attrs, "password_confirm", None) == [] by {
      assert |RegisterConfirmErrors(attrs)| == 0;
    }
    BaseFieldCases(attrs, "username", Some(IDENTIFIER_RULE));
    BaseFieldCases(attrs, "password", Some(PASSWORD_RULE));
    BaseFieldCases(attrs, "password_confirm", None);
    RegisterConfirmCases(attrs);
  }

  /** The error map after the REQUIRED, BLANK and LENGTH steps of registration. */
  function RegisterLengthsMap(attrs: Attrs): FieldErrors
  {
    WithLength(WithLength(PassesMap(attrs, REGISTER_FIELDS), "username", Get(attrs, "username"), IDENTIFIER_RULE),
               "password", Get(attrs, "password"), PASSWORD_RULE)
  }

  /** The error map after the PASSWORD MATCH step. */
  function RegisterMatched(attrs: Attrs): FieldErrors
  {
    var password := Get(attrs, "password");
    var passwordConfirm := Get(attrs, "password_confirm");
    if Truthy(password) && Truthy(passwordConfirm)
    then SetDefaultExtend(RegisterLengthsMap(attrs), "password_confirm", ValidatePasswordMatch(password, passwordConfirm))
    else RegisterLengthsMap(attrs)
  }

  /** The error map after the USERNAME UNIQUE and USERNAME FORMAT steps. */
  function RegisterUsernameChecked(attrs: Attrs, env: Env): FieldErrors
  {
    var username := Get(attrs, "username");
    SetDefaultExtend(SetDefaultExtend(RegisterMatched(attrs), "username", ValidateUsernameUnique(username, env)),
                     "username", env.usernameFormatErrors(username))
  }

  /** The error map all the steps of RegisterSerializer.validate build, the e-mail list assigned last. */
  function RegisterSteps(attrs: Attrs, env: Env): FieldErrors
  {
    RegisterUsernameChecked(attrs, env)["email" := EmailRegisterErrors(Get(attrs, "email"), env)]
  }

  /** The register error map, per field. */
  lemma RegisterErrorMapEntries(attrs: Attrs, env: Env)
    ensures var spec := RegisterErrorMap(attrs, env);
            && (forall f :: f in spec <==> f in REGISTER_FIELDS || f == "email")
            && spec["username"] == RegisterUsernameErrors(attrs, env)
            && spec["password"] == BaseFieldErrors(attrs, "password", Some(PASSWORD_RULE))
            && spec["password_confirm"] == RegisterConfirmErrors(attrs)
            && spec["email"] == EmailRegisterErrors(Get(attrs, "email"), env)
  {
  }

  /** After the first LENGTH step (the username's), the three fields hold what the shared passes and that step gave them. */
  lemma RegisterUsernameLength(attrs: Attrs)
    ensures var first := WithLength(PassesMap(attrs, REGISTER_FIELDS), "username", Get(attrs, "username"), IDENTIFIER_RULE);
            && "username" in first && first["username"] == BaseFieldErrors(attrs, "username", Some(IDENTIFIER_RULE))
            && "password" in first && first["password"] == RequiredBlank(attrs, "password")
            && "password_confirm" in first && first["password_confirm"] == BaseFieldErrors(attrs, "password_confirm", None)
  {
    var username := Get(attrs, "username");
    var passes := PassesMap(attrs, REGISTER_FIELDS);
    PassesMapEntry(attrs, REGISTER_FIELDS, "username");
    PassesMapEntry(attrs, REGISTER_FIELDS, "password");
    PassesMapEntry(attrs, REGISTER_FIELDS, "password_confirm");
    LengthAfterPasses(passes, attrs, "username", IDENTIFIER_RULE);
    WithLengthFrame(passes, "username", username, IDENTIFIER_RULE, "password");
    WithLengthFrame(passes, "username", username, IDENTIFIER_RULE, "password_confirm");
  }

  /** The shared passes and the two LENGTH steps of registration, per field. */
  lemma RegisterLengths(attrs: Attrs)
    ensures var lengths := RegisterLengthsMap(attrs);
            && "username" in lengths && lengths["username"] == BaseFieldErrors(attrs, "username", Some(IDENTIFIER_RULE))
            && "password" in lengths && lengths["password"] == BaseFieldErrors(attrs, "password", Some(PASSWORD_RULE))
            && "password_confirm" in lengths && lengths["password_confirm"] == BaseFieldErrors(attrs, "password_confirm", None)
  {
    var password := Get(attrs, "password");
    var first := WithLength(PassesMap(attrs, REGISTER_FIELDS), "username", Get(attrs, "username"), IDENTIFIER_RULE);
    RegisterUsernameLength(attrs);
    WithLengthFrame(first, "password", password, PASSWORD_RULE, "username");
    LengthAfterPasses(first, attrs, "password", PASSWORD_RULE);
    WithLengthFrame(first, "password", password, PASSWORD_RULE, "password_confirm");
  }

  /** The same steps add no field beyond the three registration fields. */
  lemma RegisterLengthsKeys(attrs: Attrs)
    ensures forall f :: f in RegisterLengthsMap(attrs) <==> f in REGISTER_FIELDS
  {
    var passes := PassesMap(attrs, REGISTER_FIELDS);
    WithLengthKeys(passes, "username", Get(attrs, "username"), IDENTIFIER_RULE);
    var first := WithLength(passes, "username", Get(attrs, "username"), IDENTIFIER_RULE);
    WithLengthKeys(first, "password", Get(attrs, "password"), PASSWORD_RULE);
  }

  /** After the PASSWORD MATCH step, per field. */
  lemma RegisterMatchedEntries(attrs: Attrs)
    ensures var matched := RegisterMatched(attrs);
            && "username" in matched && matched["username"] == BaseFieldErrors(attrs, "username", Some(IDENTIFIER_RULE))
            && "password" in matched && matched["password"] == BaseFieldErrors(attrs, "password", Some(PASSWORD_RULE))
            && "password_confirm" in matched && matched["password_confirm"] == RegisterConfirmErrors(attrs)
  {
    RegisterLengths(attrs);
    var password := Get(attrs, "password");
    var passwordConfirm := Get(attrs, "password_confirm");
    if Truthy(password) && Truthy(passwordConfirm) {
      SetDefaultExtendFrame(RegisterLengthsMap(attrs), "password_confirm", ValidatePasswordMatch(password, passwordConfirm));
    }
  }

  /** After the two username steps, per field. */
  lemma RegisterUsernameCheckedEntries(attrs: Attrs, env: Env)
    ensures var checked := RegisterUsernameChecked(attrs, env);
            && "username" in checked && checked["username"] == RegisterUsernameErrors(attrs, env)
            && "password" in checked && checked["password"] == BaseFieldErrors(attrs, "password", Some(PASSWORD_RULE))
            && "password_confirm" in checked && checked["password_confirm"] == RegisterConfirmErrors(attrs)
  {
    RegisterMatchedEntries(attrs);
    var username := Get(attrs, "username");
    var unique := SetDefaultExtend(RegisterMatched(attrs), "username", ValidateUsernameUnique(username, env));
    SetDefaultExtendFrame(RegisterMatched(attrs), "username", ValidateUsernameUnique(username, env));
    SetDefaultExtendFrame(unique, "username", env.usernameFormatErrors(username));
  }

  /** The steps of registration touch exactly the three registration fields and the e-mail. */
  lemma RegisterStepsKeys(attrs: Attrs, env: Env)
    ensures forall f :: f in RegisterSteps(attrs, env) <==> f in REGISTER_FIELDS || f == "email"
  {
    RegisterLengthsKeys(attrs);
    var password := Get(attrs, "password");
    var passwordConfirm := Get(attrs, "password_confirm");
    if Truthy(password) && Truthy(passwordConfirm) {
      SetDefaultExtendFrame(RegisterLengthsMap(attrs), "password_confirm", ValidatePasswordMatch(password, passwordConfirm));
    }
    var username := Get(attrs, "username");
    var unique := SetDefaultExtend(RegisterMatched(attrs), "username", ValidateUsernameUnique(username, env));
    SetDefaultExtendFrame(RegisterMatched(attrs), "username", ValidateUsernameUnique(username, env));
    SetDefaultExtendFrame(unique, "username", env.usernameFormatErrors(username));
  }

  /** The register error map is what the steps of the serializer build. */
  lemma RegisterErrorMapSteps(attrs: Attrs, env: Env)
    ensures RegisterErrorMap(attrs, env) == RegisterSteps(attrs, env)
  {
    var steps := RegisterSteps(attrs, env);
    var spec := RegisterErrorMap(attrs, env);
    assert forall f :: f in steps <==> f in spec by {
      RegisterStepsKeys(attrs, env);
      RegisterErrorMapEntries(attrs, env);
    }
    RegisterStepsKeys(attrs, env);
    forall f | f in steps
      ensures steps[f] == spec[f]
    {
      RegisterErrorMapEntries(attrs, env);
      if f == "email" {
        assert steps[f] == EmailRegisterErrors(Get(attrs, "email"), env);
      } else {
        RegisterUsernameCheckedEntries(attrs, env);
        assert steps[f] == RegisterUsernameChecked(attrs, env)[f];
      }
    }
    FieldErrorsExtensional(spec, steps);
  }

  /** The register errors are what the steps of the serializer leave once empty lists are dropped. */
  lemma RegisterErrorsSteps(attrs: Attrs, env: Env)
    ensures RegisterErrors(attrs, env) == RemoveEmptyListFields(RegisterSteps(attrs, env))
  {
    RegisterErrorMapSteps(attrs, env);
  }

  /** The PASSWORD MATCH step of registration: compared only when both passwords are truthy. */
  method RegisterMatchStep(errors: FieldErrors, attrs: Attrs) returns (r: FieldErrors)
    requires errors == RegisterLengthsMap(attrs)
    ensures r == RegisterMatched(attrs)
  {
    var password := Get(attrs, "password");
    var passwordConfirm := Get(attrs, "password_confirm");
    r := errors;
    if Truthy(password) && Truthy(passwordConfirm) {
      r := SetDefaultExtend(r, "password_confirm", ValidatePasswordMatch(password, passwordConfirm));
    }
  }

  /** The field checks of RegisterSerializer.validate, up to `remove_empty_list_fields`, with the queries they make. */
  method RegisterFieldChecks(attrs: Attrs, env: Env) returns (errors: FieldErrors, calls: seq<Call>)
    ensures errors == RegisterErrors(attrs, env)
    ensures calls == RegisterCheckCalls(attrs, env)
  {
    var username := Get(attrs, "username");
    var password := Get(attrs, "password");
    // REQUIRED, BLANK
    errors := RequiredBlankPasses(attrs, REGISTER_FIELDS);
    // LENGTH
    errors := LengthStep(errors, "username", username, IDENTIFIER_RULE);
    errors := LengthStep(errors, "password", password, PASSWORD_RULE);
    // PASSWORD MATCH
    errors := RegisterMatchStep(errors, attrs);
    // USERNAME UNIQUE, USERNAME FORMAT
    calls := [UsernameExistsQuery(username)];
    errors := SetDefaultExtend(errors, "username", ValidateUsernameUnique(username, env));
    errors := SetDefaultExtend(errors, "username", env.usernameFormatErrors(username));
    // EMAIL (optional): assigned, not extended
    var emailErrors, emailCalls := ValidateEmailRegister(Get(attrs, "email"), env);
    errors := errors["email" := emailErrors];
    calls := calls + emailCalls;
    RegisterErrorsSteps(attrs, env);
    errors := RemoveEmptyListFields(errors);
  }

  /**
   * RegisterSerializer.validate. The uniqueness and e-mail checks query the
   * user table during validation; no account is created and no token issued
   * unless the error map is empty.
   */
  method RegisterValidate(attrs: Attrs, env: Env) returns (r: Outcome<AuthPayload>, calls: seq<Call>)
    ensures r.Invalid? <==> RegisterErrors(attrs, env) != map[]
    ensures r.Invalid? ==> r.errors == RegisterErrors(attrs, env) && calls == RegisterCheckCalls(attrs, env)
    ensures forall c :: c in calls && c.Mutates() ==> r.Validated?
    ensures !r.Invalid? ==>
              var email := Get(attrs, "email");
              var newEmail := if Truthy(email) then email else None;
              var user := env.createUser(Get(attrs, "username"), newEmail, Get(attrs, "password"));
              && Truthy(Get(attrs, "username")) && Truthy(Get(attrs, "password"))
              && r == Validated(Payload(user, env.tokensFor(user)))
              && calls == RegisterCheckCalls(attrs, env) + [CreateUser(Get(attrs, "username"), newEmail), IssueTokens(user.pk)]
  {
    var errors;
    errors, calls := RegisterFieldChecks(attrs, env);
    assert forall c :: c in RegisterCheckCalls(attrs, env) ==> !c.Mutates();
    if errors != map[] {
      return Invalid(errors), calls;
    }
    RegisterErrorsEmpty(attrs, env);
    // CREATE
    var username := Get(attrs, "username");
    var email := Get(attrs, "email");
    var newEmail := if Truthy(email) then email else None;
    var user := env.createUser(username, newEmail, Get(attrs, "password"));
    calls := calls + [CreateUser(username, newEmail), IssueTokens(user.pk)];
    r := Validated(Payload(user, env.tokensFor(user)));
  }

  // -------------------------------------------------------- DeleteAccount

  /** The error map DeleteAccountSerializer.validate raises, before empty lists are dropped. */
  function DeleteAccountErrorMap(attrs: Attrs): FieldErrors
  {
    map["password" := BaseFieldErrors(attrs, "password", Some(PASSWORD_RULE))]
  }

  function DeleteAccountErrors(attrs: Attrs): FieldErrors
  {
    RemoveEmptyListFields(DeleteAccountErrorMap(attrs))
  }

  /** What a wrong password raises on account deletion: INVALID_PASSWORD under the field and the toast slot. */
  function DeleteWrongPassword(): (r: FieldErrors)
    ensures r.Keys == {"password", "_toast"}
    ensures Codes(r["password"]) == ["INVALID_PASSWORD"] && Codes(r["_toast"]) == ["INVALID_PASSWORD"]
  {
    map["password" := [Err(InvalidPassword.Value())], "_toast" := [Err(InvalidPassword.Value())]]
  }

  /** The password reaches the hasher only when it is present, truthy and of allowed length. */
  lemma DeleteAccountErrorsEmpty(attrs: Attrs)
    ensures DeleteAccountErrors(attrs) == map[] <==>
              Truthy(Get(attrs, "password")) && MIN_PASSWORD_LEN <= |Get(attrs, "password").value| <= MAX_PASSWORD_LEN
    ensures "password" !in attrs ==> DeleteAccountErrors(attrs) == map["password" := [Err(Required.Value())]]
  {
    BaseFieldCases(attrs, "password", Some(PASSWORD_RULE));
    RemoveEmptyListFieldsEntry(DeleteAccountErrorMap(attrs), "password");
    if DeleteAccountErrors(attrs) == map[] {
      assert "password" !in DeleteAccountErrors(attrs);
    } else {
      assert forall f :: f in DeleteAccountErrors(attrs) ==> f == "password";
    }
  }

  /** The field checks of DeleteAccountSerializer.validate, up to `remove_empty_list_fields`. */
  method DeleteAccountFieldChecks(attrs: Attrs) returns (errors: FieldErrors)
    ensures errors == DeleteAccountErrors(attrs)
  {
    var password := Get(attrs, "password");
    // REQUIRED
    errors := SetDefaultExtend(map[], "password", ValidateRequired(attrs, "password"));
    // BLANK
    if "password" in attrs {
      errors := SetDefaultExtend(errors, "password", ValidateBlank(password));
    }
    assert forall f :: f in errors <==> f == "password";
    assert errors["password"] == RequiredBlank(attrs, "password");
    // LENGTH
    LengthAfterPasses(errors, attrs, "password", PASSWORD_RULE);
    WithLengthKeys(errors, "password", password, PASSWORD_RULE);
    errors := LengthStep(errors, "password", password, PASSWORD_RULE);
    FieldErrorsExtensional(errors, DeleteAccountErrorMap(attrs));
    errors := RemoveEmptyListFields(errors);
  }

  /**
   * DeleteAccountSerializer.validate for the requesting `user`: the password
   * is checked against the hasher only once it passed the field checks.
   */
  method DeleteAccountValidate(attrs: Attrs, user: User, env: Env) returns (r: Outcome<Attrs>, calls: seq<Call>)
    ensures r.Invalid? <==> DeleteAccountErrors(attrs) != map[]
    ensures r.Invalid? ==> r.errors == DeleteAccountErrors(attrs) && calls == []
    ensures !r.Invalid? ==>
              && Truthy(Get(attrs, "password"))
              && calls == [CheckPassword(user.pk)]
              && (r == Validated(attrs) <==> env.checkPassword(user, Get(attrs, "password").value))
              && (r != Validated(attrs) ==> r == AuthFailed(DeleteWrongPassword()))
  {
    var errors := DeleteAccountFieldChecks(attrs);
    if errors != map[] {
      return Invalid(errors), [];
    }
    DeleteAccountErrorsEmpty(attrs);
    // PASSWORD CHECK
    calls := [CheckPassword(user.pk)];
    if !env.checkPassword(user, Get(attrs, "password").value) {
      return AuthFailed(DeleteWrongPassword()), calls;
    }
    r := Validated(attrs);
  }

  // ------------------------------------------------------- ChangePassword

  const CHANGE_PASSWORD_FIELDS := ["current_password", "new_password", "new_password_confirm"]

  /** What the new password collects: the shared checks, then PASSWORD_SAME_AS_OLD when it equals the current one. */
  function ChangeNewPasswordErrors(attrs: Attrs): seq<ErrDict>
  {
    BaseFieldErrors(attrs, "new_password", Some(PASSWORD_RULE))
    + (if Get(attrs, "new_password") == Get(attrs, "current_password") then [Err(PasswordSameAsOld.Value())] else [])
  }

  /** What the confirmation collects: required and blank, then the match when both new passwords are truthy. */
  function ChangeConfirmErrors(attrs: Attrs): seq<ErrDict>
  {
    var newPassword := Get(attrs, "new_password");
    var confirm := Get(attrs, "new_password_confirm");
    BaseFieldErrors(attrs, "new_password_confirm", None)
    + (if Truthy(newPassword) && Truthy(confirm) then ValidatePasswordMatch(newPassword, confirm) else [])
  }

  /** The error map ChangePasswordSerializer.validate raises, before empty lists are dropped. */
  function ChangePasswordErrorMap(attrs: Attrs): FieldErrors
  {
    map["current_password" := BaseFieldErrors(attrs, "current_password", None),
        "new_password" := ChangeNewPasswordErrors(attrs),
        "new_password_confirm" := ChangeConfirmErrors(attrs)]
  }

  function ChangePasswordErrors(attrs: Attrs): FieldErrors
  {
    RemoveEmptyListFields(ChangePasswordErrorMap(attrs))
  }

  /** The current password is never length-checked: it gets REQUIRED, BLANK or nothing. */
  lemma ChangeCurrentEntry(attrs: Attrs)
    ensures var codes := Codes(Entry(ChangePasswordErrors(attrs), "current_password"));
            codes == [] || codes == ["REQUIRED"] || codes == ["BLANK"]
  {
    RemoveEmptyListFieldsEntry(ChangePasswordErrorMap(attrs), "current_password");
    BaseFieldCases(attrs, "current_password", None);
  }

  /** The confirmation gets REQUIRED, BLANK, PASSWORD_MISMATCH or nothing, and never a length code. */
  lemma ChangeConfirmEntry(attrs: Attrs)
    ensures var codes := Codes(Entry(ChangePasswordErrors(attrs), "new_password_confirm"));
            codes == [] || codes == ["REQUIRED"] || codes == ["BLANK"] || codes == ["PASSWORD_MISMATCH"]
  {
    RemoveEmptyListFieldsEntry(ChangePasswordErrorMap(attrs), "new_password_confirm");
    ChangeConfirmCases(attrs);
    ConfirmCodes(ChangeConfirmErrors(attrs));
  }

  /** The codes of a confirmation's entries. */
  lemma ConfirmCodes(errs: seq<ErrDict>)
    requires errs == [] || errs == [Err(Required.Value())] || errs == [Err(Blank.Value())]
             || errs == [Err(PasswordMismatch.Value())]
    ensures Codes(errs) == [] || Codes(errs) == ["REQUIRED"] || Codes(errs) == ["BLANK"] || Codes(errs) == ["PASSWORD_MISMATCH"]
  {
    CodesOfErr(Required.Value());
    CodesOfErr(Blank.Value());
    CodesOfErr(PasswordMismatch.Value());
  }

  /** The entries of the confirmation: one of REQUIRED, BLANK, PASSWORD_MISMATCH, or none. */
  lemma ChangeConfirmCases(attrs: Attrs)
    ensures var errs := ChangeConfirmErrors(attrs);
            errs == [] || errs == [Err(Required.Value())] || errs == [Err(Blank.Value())]
            || errs == [Err(PasswordMismatch.Value())]
  {
    BaseFieldCases(attrs, "new_password_confirm", None);
  }

  /**
   * PASSWORD_SAME_AS_OLD is the last entry of the new password whenever it
   * equals the current one, also when both are missing (None == None), which
   * then gives exactly REQUIRED followed by it.
   */
  lemma ChangeSameAsOld(attrs: Attrs)
    ensures Get(attrs, "new_password") == Get(attrs, "current_password") ==>
              "new_password" in ChangePasswordErrors(attrs)
              && var errs := ChangePasswordErrors(attrs)["new_password"];
              errs[|errs| - 1] == Err(PasswordSameAsOld.Value())
    ensures Get(attrs, "new_password") != Get(attrs, "current_password") ==>
              Entry(ChangePasswordErrors(attrs), "new_password") == BaseFieldErrors(attrs, "new_password", Some(PASSWORD_RULE))
    ensures "new_password" !in attrs && "current_password" !in attrs ==>
              ChangePasswordErrors(attrs)["new_password"] == [Err(Required.Value()), Err(PasswordSameAsOld.Value())]
  {
    RemoveEmptyListFieldsEntry(ChangePasswordErrorMap(attrs), "new_password");
    BaseFieldCases(attrs, "new_password", Some(PASSWORD_RULE));
  }

  /** No change-password error is left only for three truthy fields with a new password different from the current one. */
  lemma ChangePasswordErrorsEmpty(attrs: Attrs)
    requires ChangePasswordErrors(attrs) == map[]
    ensures Truthy(Get(attrs, "current_password")) && Truthy(Get(attrs, "new_password"))
    ensures Truthy(Get(attrs, "new_password_confirm"))
    ensures Get(attrs, "new_password") != Get(attrs, "current_password")
    ensures Get(attrs, "new_password") == Get(attrs, "new_password_confirm")
  {
    var m := ChangePasswordErrorMap(attrs);
    RemoveEmptyListFieldsEntry(m, "current_password");
    RemoveEmptyListFieldsEntry(m, "new_password");
    RemoveEmptyListFieldsEntry(m, "new_password_confirm");
    assert BaseFieldErrors(attrs, "new_password", Some(PASSWORD_RULE)) == [] by {
      assert |ChangeNewPasswordErrors(attrs)| == 0;
    }
    assert BaseFieldErrors(attrs, "new_password_confirm", None) == [] by {
      assert |ChangeConfirmErrors(attrs)| == 0;
    }
    BaseFieldCases(attrs, "current_password", None);
    BaseFieldCases(attrs, "new_password", Some(PASSWORD_RULE));
    BaseFieldCases(attrs, "new_password_confirm", None);
  }

  /** The error map after the shared passes and the LENGTH step of the new password. */
  function ChangePasswordLengths(attrs: Attrs): FieldErrors
  {
    WithLength(PassesMap(attrs, CHANGE_PASSWORD_FIELDS), "new_password", Get(attrs, "new_password"), PASSWORD_RULE)
  }

  /** The error map after the PASSWORD MATCH step. */
  function ChangePasswordMatched(attrs: Attrs): FieldErrors
  {
    var newPassword := Get(attrs, "new_password");
    var confirm := Get(attrs, "new_password_confirm");
    if Truthy(newPassword) && Truthy(confirm)
    then SetDefaultExtend(ChangePasswordLengths(attrs), "new_password_confirm", ValidatePasswordMatch(newPassword, confirm))
    else ChangePasswordLengths(attrs)
  }

  /** The error map after the NEW != CURRENT step: all the steps of ChangePasswordSerializer.validate. */
  function ChangePasswordSteps(attrs: Attrs): FieldErrors
  {
    if Get(attrs, "new_password") == Get(attrs, "current_password")
    then SetDefaultExtend(ChangePasswordMatched(attrs), "new_password", [Err(PasswordSameAsOld.Value())])
    else ChangePasswordMatched(attrs)
  }

  /** The change-password error map, per field. */
  lemma ChangePasswordErrorMapEntries(attrs: Attrs)
    ensures var spec := ChangePasswordErrorMap(attrs);
            && (forall f :: f in spec <==> f in CHANGE_PASSWORD_FIELDS)
            && spec["current_password"] == BaseFieldErrors(attrs, "current_password", None)
            && spec["new_password"] == ChangeNewPasswordErrors(attrs)
            && spec["new_password_confirm"] == ChangeConfirmErrors(attrs)
  {
  }

  /** The shared passes and the LENGTH step of the new password, per field. */
  lemma ChangePasswordLengthsEntries(attrs: Attrs)
    ensures var lengths := ChangePasswordLengths(attrs);
            && (forall f :: f in lengths <==> f in CHANGE_PASSWORD_FIELDS)
            && lengths["current_password"] == BaseFieldErrors(attrs, "current_password", None)
            && lengths["new_password"] == BaseFieldErrors(attrs, "new_password", Some(PASSWORD_RULE))
            && lengths["new_password_confirm"] == BaseFieldErrors(attrs, "new_password_confirm", None)
  {
    var passes := PassesMap(attrs, CHANGE_PASSWORD_FIELDS);
    PassesMapEntry(attrs, CHANGE_PASSWORD_FIELDS, "current_password");
    PassesMapEntry(attrs, CHANGE_PASSWORD_FIELDS, "new_password");
    PassesMapEntry(attrs, CHANGE_PASSWORD_FIELDS, "new_password_confirm");
    LengthAfterPasses(passes, attrs, "new_password", PASSWORD_RULE);
    WithLengthFrame(passes, "new_password", Get(attrs, "new_password"), PASSWORD_RULE, "current_password");
    WithLengthFrame(passes, "new_password", Get(attrs, "new_password"), PASSWORD_RULE, "new_password_confirm");
  }

  /** After the PASSWORD MATCH step, per field. */
  lemma ChangePasswordMatchedEntries(attrs: Attrs)
    ensures var matched := ChangePasswordMatched(attrs);
            && (forall f :: f in matched <==> f in CHANGE_PASSWORD_FIELDS)
            && matched["current_password"] == BaseFieldErrors(attrs, "current_password", None)
            && matched["new_password"] == BaseFieldErrors(attrs, "new_password", Some(PASSWORD_RULE))
            && matched["new_password_confirm"] == ChangeConfirmErrors(attrs)
  {
    ChangePasswordLengthsEntries(attrs);
    var newPassword := Get(attrs, "new_password");
    var confirm := Get(attrs, "new_password_confirm");
    if Truthy(newPassword) && Truthy(confirm) {
      SetDefaultExtendFrame(ChangePasswordLengths(attrs), "new_password_confirm", ValidatePasswordMatch(newPassword, confirm));
    }
  }

  lemma ChangePasswordStepsKeys(attrs: Attrs)
    ensures forall f :: f in ChangePasswordSteps(attrs) <==> f in ChangePasswordErrorMap(attrs)
  {
    ChangePasswordMatchedEntries(attrs);
    ChangePasswordErrorMapEntries(attrs);
    if Get(attrs, "new_password") == Get(attrs, "current_password") {
      SetDefaultExtendFrame(ChangePasswordMatched(attrs), "new_password", [Err(PasswordSameAsOld.Value())]);
    }
  }

  lemma ChangePasswordStepsCurrent(attrs: Attrs)
    ensures "current_password" in ChangePasswordSteps(attrs)
    ensures ChangePasswordSteps(attrs)["current_password"] == ChangePasswordErrorMap(attrs)["current_password"]
  {
    ChangePasswordMatchedEntries(attrs);
    ChangePasswordErrorMapEntries(attrs);
    if Get(attrs, "new_password") == Get(attrs, "current_password") {
      SetDefaultExtendFrame(ChangePasswordMatched(attrs), "new_password", [Err(PasswordSameAsOld.Value())]);
    }
  }

  lemma ChangePasswordStepsNew(attrs: Attrs)
    ensures "new_password" in ChangePasswordSteps(attrs)
    ensures ChangePasswordSteps(attrs)["new_password"] == ChangePasswordErrorMap(attrs)["new_password"]
  {
    ChangePasswordMatchedEntries(attrs);
    ChangePasswordErrorMapEntries(attrs);
    if Get(attrs, "new_password") == Get(attrs, "current_password") {
      SetDefaultExtendFrame(ChangePasswordMatched(attrs), "new_password", [Err(PasswordSameAsOld.Value())]);
    }
  }

  lemma ChangePasswordStepsConfirm(attrs: Attrs)
    ensures "new_password_confirm" in ChangePasswordSteps(attrs)
    ensures ChangePasswordSteps(attrs)["new_password_confirm"] == ChangePasswordErrorMap(attrs)["new_password_confirm"]
  {
    ChangePasswordMatchedEntries(attrs);
    ChangePasswordErrorMapEntries(attrs);
    if Get(attrs, "new_password") == Get(attrs, "current_password") {
      SetDefaultExtendFrame(ChangePasswordMatched(attrs), "new_password", [Err(PasswordSameAsOld.Value())]);
    }
  }

  /** The change-password errors are what the steps of the serializer leave once empty lists are dropped. */
  lemma ChangePasswordErrorsSteps(attrs: Attrs)
    ensures ChangePasswordErrors(attrs) == RemoveEmptyListFields(ChangePasswordSteps(attrs))
  {
    ChangePasswordErrorMapSteps(attrs);
  }

  /** The change-password error map is what the steps of the serializer build. */
  lemma ChangePasswordErrorMapSteps(attrs: Attrs)
    ensures ChangePasswordErrorMap(attrs) == ChangePasswordSteps(attrs)
  {
    var steps := ChangePasswordSteps(attrs);
    var spec := ChangePasswordErrorMap(attrs);
    assert forall f :: f in steps <==> f in spec by {
      ChangePasswordStepsKeys(attrs);
    }
    forall f | f in steps
      ensures steps[f] == spec[f]
    {
      ChangePasswordStepsKeys(attrs);
      ChangePasswordErrorMapEntries(attrs);
      if f == "current_password" {
        ChangePasswordStepsCurrent(attrs);
      } else if f == "new_password" {
        ChangePasswordStepsNew(attrs);
      } else {
        ChangePasswordStepsConfirm(attrs);
      }
    }
    FieldErrorsExtensional(spec, steps);
  }

  /** The PASSWORD MATCH step: the confirmation is compared only when both new passwords are truthy. */
  method ChangePasswordMatchStep(errors: FieldErrors, attrs: Attrs) returns (r: FieldErrors)
    requires errors == ChangePasswordLengths(attrs)
    ensures r == ChangePasswordMatched(attrs)
  {
    var newPassword := Get(attrs, "new_password");
    var confirm := Get(attrs, "new_password_confirm");
    r := errors;
    if Truthy(newPassword) && Truthy(confirm) {
      r := SetDefaultExtend(r, "new_password_confirm", ValidatePasswordMatch(newPassword, confirm));
    }
  }

  /** The NEW != CURRENT step: PASSWORD_SAME_AS_OLD is appended whenever the two values are equal. */
  method SameAsOldStep(errors: FieldErrors, attrs: Attrs) returns (r: FieldErrors)
    requires errors == ChangePasswordMatched(attrs)
    ensures r == ChangePasswordSteps(attrs)
  {
    r := errors;
    if Get(attrs, "new_password") == Get(attrs, "current_password") {
      r := SetDefaultExtend(r, "new_password", [Err(PasswordSameAsOld.Value())]);
    }
  }

  /** The field checks of ChangePasswordSerializer.validate, up to `remove_empty_list_fields`. */
  method ChangePasswordFieldChecks(attrs: Attrs) returns (errors: FieldErrors)
    ensures errors == ChangePasswordErrors(attrs)
  {
    // REQUIRED, BLANK
    errors := RequiredBlankPasses(attrs, CHANGE_PASSWORD_FIELDS);
    // LENGTH (new password only)
    errors := LengthStep(errors, "new_password", Get(attrs, "new_password"), PASSWORD_RULE);
    // PASSWORD MATCH
    errors := ChangePasswordMatchStep(errors, attrs);
    // NEW != CURRENT
    errors := SameAsOldStep(errors, attrs);
    ChangePasswordErrorsSteps(attrs);
    errors := RemoveEmptyListFields(errors);
  }

  /**
   * ChangePasswordSerializer.validate for the requesting `user`: a wrong
   * current password is reported under `current_password` only.
   */
  method ChangePasswordValidate(attrs: Attrs, user: User, env: Env) returns (r: Outcome<Attrs>, calls: seq<Call>)
    ensures r.Invalid? <==> ChangePasswordErrors(attrs) != map[]
    ensures r.Invalid? ==> r.errors == ChangePasswordErrors(attrs) && calls == []
    ensures !r.Invalid? ==>
              && Truthy(Get(attrs, "current_password"))
              && calls == [CheckPassword(user.pk)]
              && (r == Validated(attrs) <==> env.checkPassword(user, Get(attrs, "current_password").value))
              && (r != Validated(attrs) ==> r == AuthFailed(OneError("current_password", InvalidPassword.Value())))
  {
    var errors := ChangePasswordFieldChecks(attrs);
    if errors != map[] {
      return Invalid(errors), [];
    }
    ChangePasswordErrorsEmpty(attrs);
    // PASSWORD CHECK
    calls := [CheckPassword(user.pk)];
    if !env.checkPassword(user, Get(attrs, "current_password").value) {
      return AuthFailed(OneError("current_password", InvalidPassword.Value())), calls;
    }
    r := Validated(attrs);
  }
}
