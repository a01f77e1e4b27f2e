/**
 * The field validators shared by the serializers. Each returns a list of
 * error entries, empty when the check passes.
 */
module Validators {
  import opened Wrappers
  import opened ResponseCodes
  import opened ErrorHelpers
  import opened UserStore

  /** A request payload as the serializer sees it: field name to a string or null. */
  type Attrs = map<string, Option<string>>

  /** `attrs.get(field)`: `None` for a missing field and for a null value. */
  function Get(attrs: Attrs, field: string): (v: Option<string>)
    ensures v.Some? ==> field in attrs && attrs[field] == v
    ensures field in attrs ==> v == attrs[field]
  {
    if field in attrs then attrs[field] else None
  }

  /** Python truthiness of a string-or-None value. */
  predicate Truthy(v: Option<string>)
  {
    v.Some? && v.value != ""
  }

  /** `validate_required`: one entry exactly when the field is missing from the payload. */
  function ValidateRequired(attrs: Attrs, fieldName: string, code: string := Required.Value()): (r: seq<ErrDict>)
    ensures r == [Err(code)] <==> fieldName !in attrs
    ensures r == [] <==> fieldName in attrs
  {
    if fieldName !in attrs then [Err(code)] else []
  }

  /** `validate_blank`: one entry exactly for null and the empty string; whitespace passes. */
  function ValidateBlank(value: Option<string>, code: string := Blank.Value()): (r: seq<ErrDict>)
    ensures r == [Err(code)] <==> value == None || value == Some("")
    ensures r == [] <==> value != None && value != Some("")
  {
    if value == None || value == Some("") then [Err(code)] else []
  }

  /** Python truthiness of an optional code argument. */
  predicate CodeTruthy(code: Option<string>)
  {
    code.Some? && code.value != ""
  }

  /** The first check of `validate_length` fires. */
  predicate TooShort(value: string, minLen: Option<int>, minCode: Option<string>)
  {
    CodeTruthy(minCode) && minLen.Some? && |value| < minLen.value
  }

  /** The second check of `validate_length` fires. */
  predicate TooLong(value: string, maxLen: Option<int>, maxCode: Option<string>)
  {
    CodeTruthy(maxCode) && maxLen.Some? && |value| > maxLen.value
  }

  /**
   * What `validate_length` returns: at most two entries, the too-short one
   * (with parameter `min`) first and the too-long one (with `max`) last.
   */
  function LengthErrors(value: string, minLen: Option<int>, maxLen: Option<int>,
                        minCode: Option<string>, maxCode: Option<string>): (r: seq<ErrDict>)
    ensures |r| == (if TooShort(value, minLen, minCode) then 1 else 0) + (if TooLong(value, maxLen, maxCode) then 1 else 0)
    ensures TooShort(value, minLen, minCode) ==> r[0] == ApiErrDict(minCode.value, map["min" := minLen.value])
    ensures TooLong(value, maxLen, maxCode) ==> r[|r| - 1] == ApiErrDict(maxCode.value, map["max" := maxLen.value])
  {
    (if TooShort(value, minLen, minCode) then [ApiErrDict(minCode.value, map["min" := minLen.value])] else [])
    + (if TooLong(value, maxLen, maxCode) then [ApiErrDict(maxCode.value, map["max" := maxLen.value])] else [])
  }

  /**
   * With both bounds and both codes given and `min <= max`, at most one entry
   * comes back, and none exactly when the length lies within the bounds.
   */
  lemma LengthErrorsWithinBounds(value: string, minLen: int, maxLen: int, minCode: string, maxCode: string)
    requires minLen <= maxLen && minCode != "" && maxCode != ""
    ensures |LengthErrors(value, Some(minLen), Some(maxLen), Some(minCode), Some(maxCode))| <= 1
    ensures LengthErrors(value, Some(minLen), Some(maxLen), Some(minCode), Some(maxCode)) == []
            <==> minLen <= |value| <= maxLen
  {
  }

  /** `validate_length`, which builds its list by appending. */
  method ValidateLength(value: string, minLen: Option<int>, maxLen: Option<int>,
                        minCode: Option<string>, maxCode: Option<string>) returns (errors: seq<ErrDict>)
    ensures errors == LengthErrors(value, minLen, maxLen, minCode, maxCode)
  {
    errors := [];
    if CodeTruthy(minCode) && minLen.Some? && |value| < minLen.value {
      errors := errors + [ApiErrDict(minCode.value, map["min" := minLen.value])];
    }
    if CodeTruthy(maxCode) && maxLen.Some? && |value| > maxLen.value {
      errors := errors + [ApiErrDict(maxCode.value, map["max" := maxLen.value])];
    }
  }

  /** `validate_password_match`: empty exactly when both arguments are equal. */
  function ValidatePasswordMatch(password: Option<string>, passwordConfirm: Option<string>): (r: seq<ErrDict>)
    ensures r == [] <==> password == passwordConfirm
    ensures r != [] ==> r == [Err(PasswordMismatch.Value())]
  {
    if password != passwordConfirm then [Err(PasswordMismatch.Value())] else []
  }

  /** The outcome of a Python call that may raise AttributeError. */
  datatype Raising<T> = Returned(value: T) | RaisedAttributeError(attribute: string)

  /**
   * `validate_username_unique` as written: on a taken username it looks up
   * `EC.AuthFailed.USERNAME_TAKEN`, which that enumeration does not define.
   */
  function ValidateUsernameUniqueAsWritten(username: Option<string>, env: Env): (r: Raising<seq<ErrDict>>)
    ensures r.RaisedAttributeError? <==> env.usernameExists(username)
    ensures r.Returned? ==> r.value == []
  {
    if env.usernameExists(username) then
      match AuthFailedMember("USERNAME_TAKEN")
      case Some(c) => Returned([Err(c.Value())])
      case None => RaisedAttributeError("USERNAME_TAKEN")
    else
      Returned([])
  }

  /** `validate_username_unique` with the code taken from `EC.Validation`, where it is defined. */
  function ValidateUsernameUnique(username: Option<string>, env: Env): (r: seq<ErrDict>)
    ensures r == [] <==> !env.usernameExists(username)
    ensures r != [] ==> r == [Err(UsernameTaken.Value())]
  {
    if env.usernameExists(username) then [Err(UsernameTaken.Value())] else []
  }

  /** Registering a taken username raises AttributeError as written; the corrected check reports USERNAME_TAKEN. */
  lemma UsernameTakenAsWritten(username: Option<string>, env: Env)
    requires env.usernameExists(username)
    ensures ValidateUsernameUniqueAsWritten(username, env) == RaisedAttributeError("USERNAME_TAKEN")
    ensures Codes(ValidateUsernameUnique(username, env)) == ["USERNAME_TAKEN"]
  {
    assert AuthFailedMember("USERNAME_TAKEN") == None;
  }

  /** The entries `validate_email_register` returns. */
  function EmailRegisterErrors(email: Option<string>, env: Env): seq<ErrDict>
  {
    if !Truthy(email) then []
    else if !env.isValidEmail(email.value) then [Err(InvalidEmail.Value())]
    else if env.emailExists(email.value) then [Err(EmailTaken.Value())]
    else []
  }

  /** The user-table queries `validate_email_register` makes. */
  function EmailRegisterCalls(email: Option<string>, env: Env): seq<Call>
  {
    if Truthy(email) && env.isValidEmail(email.value) then [EmailExistsQuery(email.value)] else []
  }

  /**
   * A falsy e-mail passes without any query; a malformed one gets exactly
   * INVALID_EMAIL without consulting the user table; otherwise the table is
   * asked once and at most EMAIL_TAKEN comes back.
   */
  lemma EmailRegisterCases(email: Option<string>, env: Env)
    ensures !Truthy(email) ==> EmailRegisterErrors(email, env) == [] && EmailRegisterCalls(email, env) == []
    ensures Truthy(email) && !env.isValidEmail(email.value) ==>
              Codes(EmailRegisterErrors(email, env)) == ["INVALID_EMAIL"] && EmailRegisterCalls(email, env) == []
    ensures Truthy(email) && env.isValidEmail(email.value) ==>
              EmailRegisterCalls(email, env) == [EmailExistsQuery(email.value)]
              && (EmailRegisterErrors(email, env) == [] <==> !env.emailExists(email.value))
              && (EmailRegisterErrors(email, env) != [] ==> Codes(EmailRegisterErrors(email, env)) == ["EMAIL_TAKEN"])
  {
  }

  /** `validate_email_register`, which builds its list by appending. */
  method ValidateEmailRegister(email: Option<string>, env: Env) returns (errors: seq<ErrDict>, calls: seq<Call>)
    ensures errors == EmailRegisterErrors(email, env)
    ensures calls == EmailRegisterCalls(email, env)
  {
    errors, calls := [], [];
    if !Truthy(email) {
      return;
    }
    if !env.isValidEmail(email.value) {
      errors := errors + [Err(InvalidEmail.Value())];
      return;
    }
    calls := calls + [EmailExistsQuery(email.value)];
    if env.emailExists(email.value) {
      errors := errors + [Err(EmailTaken.Value())];
    }
  }

  /**
   * `validate_email_register` as written: a well-formed, taken address looks
   * up `EC.AuthFailed.EMAIL_TAKEN`, which that enumeration does not define.
   */
  function EmailRegisterAsWritten(email: Option<string>, env: Env): (r: Raising<seq<ErrDict>>)
    ensures r.RaisedAttributeError? <==> Truthy(email) && env.isValidEmail(email.value) && env.emailExists(email.value)
  {
    if !Truthy(email) then Returned([])
    else if !env.isValidEmail(email.value) then Returned([Err(InvalidEmail.Value())])
    else if env.emailExists(email.value) then
      match AuthFailedMember("EMAIL_TAKEN")
      case Some(c) => Returned([Err(c.Value())])
      case None => RaisedAttributeError("EMAIL_TAKEN")
    else Returned([])
  }

  /** Registering a taken e-mail raises AttributeError as written; the corrected check reports EMAIL_TAKEN. */
  lemma EmailTakenAsWritten(email: string, env: Env)
    requires email != "" && env.isValidEmail(email) && env.emailExists(email)
    ensures EmailRegisterAsWritten(Some(email), env) == RaisedAttributeError("EMAIL_TAKEN")
    ensures Codes(EmailRegisterErrors(Some(email), env)) == ["EMAIL_TAKEN"]
  {
    assert AuthFailedMember("EMAIL_TAKEN") == None;
  }
}
