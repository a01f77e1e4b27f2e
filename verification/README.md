# Authentication core of the Recipes application, in Dafny

The Recipes application has a Django REST Framework backend and a React
frontend. This project models the authentication core of both sides and
proves properties of that model.

**Backend.**
- The `validate` methods of the four serializers: login, registration,
  account deletion and password change. Each one collects an error map
  field by field. Every missing field gets `REQUIRED`. A null or empty
  value gets `BLANK`. A too-short or too-long identifier or password gets
  a length code with its bound. Then come the cross-field checks (password
  match, unique username, username format, e-mail, new password equal to
  the current one). Fields whose list stayed empty are dropped. Any
  remaining error raises a `ValidationError`; otherwise the serializer goes
  on to the user table, the password hasher and the token issuer.
- The validators those methods call, and `api_err_dict`.
- The response envelope `api_response`.
- The global exception handler. It turns each exception class into a code,
  an HTTP status and a `{field: [CODE, ...]}` error map.

**Frontend.**
- The axios client: the in-memory access token, the request interceptor
  that attaches it, and the response interceptor that answers a 401 by
  refreshing once and resending.
- `getApiError` and `rhfMessage`.
- `applyApiErrorsToForm`, which copies the first server error of each field
  into react-hook-form.
- The toast truncation.
- The auth-panel context.
- The zod schemas of the login, change-password, change-username,
  change-email and delete-account forms.
- The delete-account confirmation flow, which holds validated data until
  the modal is confirmed.

**How the model is built.**
- Code that changes state step by step is imperative Dafny:
  - `Client.ApiClient` and `Client.RequestConfig` for the axios slots and
    the request config;
  - `AuthPanel.AuthPanelState` for the panel context;
  - `DeleteAccountForm.DeleteAccountFlow` for the component state;
  - the serializer, validator and `extract_error_codes` loops, as methods.
- Each method is proved against a declarative specification function. The
  properties the code promises are lemmas about those functions.
- Django's database, hasher, e-mail validator, username-format validator
  and token issuer are function-valued fields of `UserStore.Env`. Every
  call a serializer makes is recorded in a `Call` trace. The contracts can
  therefore say which queries happened, in what order, and that nothing is
  created or issued on a rejected request.
- Python dictionaries are Dafny maps. JavaScript objects are sequences of
  entries, so that `Object.entries` order is kept.

The code is followed where its behaviour is more specific than its
description. The request interceptor tests the token for truthiness, so an
empty-string token attaches no header (`Client.ApiClient.InterceptRequest`).
`validate_blank` rejects only null and the empty string, so a value made of
spaces passes it. (In the running service DRF's `CharField` trims such a
value to the empty string before `validate` sees it.)

## Model

| member | source | states |
|---|---|---|
| ErrorHelpers.ApiErrDict | backend/config/error_helpers.py:1-13 | the entry always has `err_code`; it has `err_params` exactly when keyword parameters were given, holding them; it has no other key |
| ErrorHelpers.ApiErrDictRoundTrip | backend/config/error_helpers.py:1-13 | reading the code and the parameters back out of an entry gives exactly what it was built from |
| ErrorHelpers.SetDefaultExtend | backend/authentication/serializers.py:45 | `setdefault(field, []).extend(more)` leaves the field's previous list followed by `more` |
| ErrorHelpers.SetDefaultExtendFrame | backend/authentication/serializers.py:45 | the step adds at most its own field and leaves every other field's list as it was |
| ErrorHelpers.RemoveEmptyListFieldsEntry | backend/authentication/serializers.py:74 | dropping empty lists keeps a field exactly when its list is non-empty, and does not change any field's list as `errors.get(field, [])` reads it |
| ResponseCodes.AuthFailedMember | backend/config/response_codes.py:53-58 | an attribute lookup on `EC.AuthFailed` finds the member of that name, or no member at all when the enumeration lacks the name |
| Validators.Get | backend/authentication/serializers.py:38-39 | `attrs.get(field)` is the stored value when the field is present and None otherwise |
| Validators.ValidateRequired | backend/config/validators.py:10-14 | one entry with the given code exactly when the field is missing; no entry exactly when it is present |
| Validators.ValidateBlank | backend/config/validators.py:17-21 | one entry exactly for None and the empty string; nothing for every other value, whitespace included |
| Validators.LengthErrors | backend/config/validators.py:24-30 | one entry per failed bound; the too-short entry (with `min`) first and the too-long entry (with `max`) last; a bound is skipped when its code is falsy or its limit is None |
| Validators.LengthErrorsWithinBounds | backend/config/validators.py:24-30 | with ordered bounds and non-empty codes there is at most one entry, and none exactly when the length is within the bounds |
| Validators.ValidateLength | backend/config/validators.py:24-30 | the appending implementation returns exactly the entries the specification function gives |
| Validators.ValidatePasswordMatch | backend/config/validators.py:33-36 | no entry exactly when the two values are equal; otherwise exactly PASSWORD_MISMATCH |
| Validators.ValidateUsernameUniqueAsWritten | backend/config/validators.py:39-42 | as written, a taken username raises AttributeError and a free one returns no entry |
| Validators.ValidateUsernameUnique | backend/config/validators.py:39-42 | no entry exactly when no user has the username case-insensitively; otherwise exactly USERNAME_TAKEN |
| Validators.UsernameTakenAsWritten | backend/config/validators.py:41 | for every taken username, the code as written raises AttributeError, while the corrected validator reports USERNAME_TAKEN |
| Validators.EmailRegisterCases | backend/config/validators.py:45-60 | a falsy e-mail gives nothing and no query; a malformed one gives exactly INVALID_EMAIL and no query; a well-formed one is queried once and gives EMAIL_TAKEN exactly when taken |
| Validators.ValidateEmailRegister | backend/config/validators.py:45-60 | the early-return implementation returns exactly the specified entries and query trace |
| Validators.EmailRegisterAsWritten | backend/config/validators.py:45-60 | as written, AttributeError is raised exactly for a truthy, well-formed, taken address |
| Validators.EmailTakenAsWritten | backend/config/validators.py:58 | for every well-formed taken address, the code as written raises AttributeError, while the corrected validator reports EMAIL_TAKEN |
| SerializerFields.BaseFieldCases | backend/authentication/serializers.py:43-72 | what a field collects from the three shared passes: exactly REQUIRED when missing; exactly BLANK when null or empty; nothing when truthy and without a length rule; otherwise its length rule's entries, at most one, none exactly within the bounds |
| SerializerFields.RequiredPass | backend/authentication/serializers.py:44-45 | the REQUIRED loop adds every listed field as a key, appends its `validate_required` entries and leaves unlisted fields as they were |
| SerializerFields.BlankPass | backend/authentication/serializers.py:49-51 | the BLANK loop touches only the listed fields present in the payload and appends their `validate_blank` entries |
| SerializerFields.RequiredBlankPasses | backend/authentication/serializers.py:41-51 | the two loops, run from an empty map, give one key per listed field, holding its REQUIRED and BLANK entries |
| SerializerFields.LengthAfterPasses | backend/authentication/serializers.py:54-72 | after the two passes, the length step completes the field's list to what `BaseFieldCases` describes |
| SerializerFields.WithLengthFrame | backend/authentication/serializers.py:54-72 | the length step of one field leaves every other field's list unchanged |
| SerializerFields.LengthStep | backend/authentication/serializers.py:54-72 | `if value:` then extend by `validate_length`: the map is unchanged for a falsy value and otherwise gains the rule's entries under the field |
| SerializerFields.OneError | backend/authentication/serializers.py:85 | the raised map has exactly the one field, whose only code is the given one |
| Serializers.LoginErrorsEmpty | backend/authentication/serializers.py:41-77 | login raises no ValidationError exactly when identifier and password are both truthy and within their length bounds |
| Serializers.LoginFieldShape | backend/authentication/serializers.py:43-72 | each login field that is reported has exactly one entry; a missing field is reported as exactly REQUIRED |
| Serializers.LoginErrorMapSteps | backend/authentication/serializers.py:43-72 | the step-by-step error map (passes, then the two length steps) equals the declarative per-field error map |
| Serializers.LoginFieldChecks | backend/authentication/serializers.py:41-74 | the implementation of the field checks returns exactly the specified error map, empty lists removed |
| Serializers.LoginAuthChain | backend/authentication/serializers.py:79-103 | the user table is asked by e-mail first exactly when the identifier is a valid e-mail; the username filter runs exactly when that lookup was skipped or found nobody; the chain never reports a field error; a success ends by issuing tokens for the user returned; nothing is created or issued on a failure |
| Serializers.LoginVerdict | backend/authentication/serializers.py:79-103 | INVALID_CREDENTIALS under `_global` exactly when no user was found or the password is wrong; ACCOUNT_DISABLED exactly for a right password on an inactive user; success exactly for an active user with the right password, with that user's id, name, e-mail and tokens |
| Serializers.LoginValidate | backend/authentication/serializers.py:36-103 | a ValidationError with the specified map exactly when field errors remain, and then no query at all; otherwise both fields are truthy and the outcome and trace are those of the authentication chain |
| Serializers.RegisterEmailEntry | backend/authentication/serializers.py:153 | with the corrected e-mail validator, the e-mail field carries nothing, INVALID_EMAIL or EMAIL_TAKEN; it is absent for a falsy e-mail |
| Serializers.RegisterPasswordEntry | backend/authentication/serializers.py:123-140 | the password field carries at most one entry |
| Serializers.RegisterConfirmCases | backend/authentication/serializers.py:123-144 | a missing confirmation is exactly REQUIRED; PASSWORD_MISMATCH appears only when both passwords are truthy; with both truthy, the confirmation is clean exactly when they are equal, and otherwise is exactly PASSWORD_MISMATCH |
| Serializers.RegisterConfirmEntry | backend/authentication/serializers.py:123-155 | the confirmation entries survive the removal of empty lists unchanged |
| Serializers.RegisterMissingUsername | backend/authentication/serializers.py:123-155 | a missing username still reaches the uniqueness and format checks: REQUIRED followed by their entries for None |
| Serializers.RegisterErrorsEmpty | backend/authentication/serializers.py:113-158 | registration passes the field checks only with a truthy username, truthy and equal passwords |
| Serializers.RegisterErrorMapSteps | backend/authentication/serializers.py:120-153 | the step-by-step error map equals the declarative per-field map, and its keys are the three required fields and `email` |
| Serializers.RegisterMatchStep | backend/authentication/serializers.py:143-144 | the match step extends only the confirmation, and only when both passwords are truthy |
| Serializers.RegisterFieldChecks | backend/authentication/serializers.py:120-155 | with the corrected validators, the implementation returns the specified error map and the exact query trace of the uniqueness and e-mail checks |
| Serializers.RegisterValidate | backend/authentication/serializers.py:113-177 | with the corrected validators, a ValidationError exactly when field errors remain, and then no account is created; otherwise the user is created with a falsy e-mail stored as None, and the tokens are issued for that user, in that order; nothing is mutated on a rejection |
| Serializers.DeleteWrongPassword | backend/authentication/serializers.py:215-223 | a wrong password raises INVALID_PASSWORD under both `password` and `_toast`, and under nothing else |
| Serializers.DeleteAccountErrorsEmpty | backend/authentication/serializers.py:189-212 | deletion passes the field checks exactly for a truthy password within the length bounds; a missing password raises exactly REQUIRED |
| Serializers.DeleteAccountFieldChecks | backend/authentication/serializers.py:189-209 | the implementation returns exactly the specified error map |
| Serializers.DeleteAccountValidate | backend/authentication/serializers.py:184-225 | field errors raise before the hasher is consulted; otherwise exactly one password check, and the payload comes back exactly when it succeeds |
| Serializers.ChangeCurrentEntry | backend/authentication/serializers.py:243-271 | the current password is never length-checked: it carries nothing, REQUIRED or BLANK |
| Serializers.ChangeConfirmEntry | backend/authentication/serializers.py:243-271 | the confirmation carries nothing, REQUIRED, BLANK or PASSWORD_MISMATCH |
| Serializers.ChangeSameAsOld | backend/authentication/serializers.py:267-269 | PASSWORD_SAME_AS_OLD is the new password's last entry whenever it equals the current one, also when both are missing (REQUIRED then PASSWORD_SAME_AS_OLD); otherwise the new password carries only the shared checks |
| Serializers.ChangePasswordErrorsEmpty | backend/authentication/serializers.py:241-274 | passing the field checks implies three truthy fields, a new password different from the current one and equal to its confirmation |
| Serializers.ChangePasswordErrorMapSteps | backend/authentication/serializers.py:241-269 | the step-by-step error map equals the declarative per-field map |
| Serializers.ChangePasswordMatchStep | backend/authentication/serializers.py:263-265 | the match step extends only the confirmation, and only when both new passwords are truthy |
| Serializers.SameAsOldStep | backend/authentication/serializers.py:267-269 | the same-as-old step appends to the new password exactly when it equals the current one |
| Serializers.ChangePasswordFieldChecks | backend/authentication/serializers.py:241-271 | the implementation returns exactly the specified error map |
| Serializers.ChangePasswordValidate | backend/authentication/serializers.py:234-284 | field errors raise before the hasher is consulted; otherwise exactly one check of the current password, and INVALID_PASSWORD under `current_password` exactly when it fails |
| Responses.OrEmpty | backend/config/responses.py:4-24 | None becomes an empty object; every other value is kept |
| Responses.ApiResponse | backend/config/responses.py:4-24 | the envelope has exactly the six keys; success, code, message and status are copied; data, errors and meta are never null and equal their argument when it is not None |
| Responses.ApiResponseDefaults | backend/config/responses.py:4-24 | without optional arguments: status 200, a null message and empty data, errors and meta |
| ExceptionHandler.Upper | backend/config/exception_handler.py:25 | upper-casing keeps the length and maps each character on its own |
| ExceptionHandler.ReplaceSpaces | backend/config/exception_handler.py:25 | every space becomes `_` and every other character is kept |
| ExceptionHandler.NormalizeCode | backend/config/exception_handler.py:22-25 | the code keeps the length of its source text (an ErrorDetail's code, or its text when the code is empty) and contains no space |
| ExceptionHandler.NormalizeCodePointwise | backend/config/exception_handler.py:22-25 | each character is normalised on its own: a space becomes `_`, an ASCII letter is upper-cased |
| ExceptionHandler.NormalizeCodeIdempotent | backend/config/exception_handler.py:22-25 | normalising a normalised code again changes nothing |
| ExceptionHandler.ItemCodes | backend/config/exception_handler.py:33 | one normalised code per item, in order |
| ExceptionHandler.DictCodes | backend/config/exception_handler.py:28-35 | the keys of the result are exactly the keys of the detail |
| ExceptionHandler.DictCodesEntries | backend/config/exception_handler.py:28-35 | for a dict detail, every key maps to one code per item in order; a non-list value becomes a one-element list |
| ExceptionHandler.ListAndScalarCodes | backend/config/exception_handler.py:38-43 | a list detail and a single detail both go under `_error` alone; the list keeps its length and order |
| ExceptionHandler.ListCodes | backend/config/exception_handler.py:33 | the comprehension loop returns exactly the item codes |
| ExceptionHandler.ExtractErrorCodes | backend/config/exception_handler.py:16-43 | the loop over the dict entries builds exactly the specified code map, for all three kinds of detail |
| ExceptionHandler.CustomExceptionHandler | backend/config/exception_handler.py:46-126 | every response is a failure envelope with the six keys, a null message and empty data and meta; its status is one of the fixed ones unless DRF's own handler answered, in which case the code is API_ERROR |
| ExceptionHandler.TokenErrorsFirst | backend/config/exception_handler.py:53-60 | a token error gives TOKEN_INVALID with 401, even when the exception is also of another handled class |
| ExceptionHandler.DetailBranches | backend/config/exception_handler.py:62-89 | validation gives VALIDATION_ERROR with 422, authentication gives AUTH_FAILED with 401, permission gives FORBIDDEN with 403, each with the codes extracted from the exception's detail, in that order of precedence |
| ExceptionHandler.FixedBranches | backend/config/exception_handler.py:91-107 | when no token, validation, authentication or permission class applies, NotFound gives NOT_FOUND with 404, and otherwise Throttled gives RATE_LIMITED with 429, each with a fixed single-code map |
| ExceptionHandler.FallThrough | backend/config/exception_handler.py:109-126 | any other exception gives API_ERROR with DRF's status (400 when it has none) and DRF's codes when DRF answers, and otherwise SERVER_ERROR with 500 and INTERNAL_SERVER_ERROR |
| Client.IncludesSound | frontend/src/api/client.ts:41 | when `includes` holds, the refresh path occurs at some index of the URL |
| Client.IncludesComplete | frontend/src/api/client.ts:41 | wherever the refresh path occurs in the URL, `includes` holds |
| Client.Bearer | frontend/src/api/client.ts:22 | the header is `Bearer ` followed by the token text, with `null` printed as the word null |
| Client.ApiClient.SetAccessToken | frontend/src/api/client.ts:9-11 | the token is replaced and the refresh lock is left alone |
| Client.ApiClient.InterceptRequest | frontend/src/api/client.ts:20-25 | `Authorization` is set to the bearer token exactly when the token is truthy; every other header, the URL and the retry flag are kept |
| Client.ApiClient.HandleResponseError | frontend/src/api/client.ts:31-72 | a non-401 or config-less error is rejected untouched; a 401 from the refresh endpoint clears the token without a retry; a second 401 on a retried request clears the token and never retries again; a first 401 marks the request as retried, refreshes unless a refresh is under way, and resends it with the new bearer header, while a failed refresh clears the token, releases the lock and rejects with the refresh error |
| ApiErrors.GetApiError | frontend/src/forms/core/apiErrors.ts:14-26 | a falsy message gives null; an object with `code` is returned as it is; a non-empty string `s` becomes `{code: s}`; anything else gives null; a result is always an ApiError |
| ApiErrors.ErrorRoundTrip | frontend/src/forms/core/apiErrors.ts:10-26 | an error stored through `rhfMessage` is read back unchanged by `getApiError` |
| ApiErrors.StringMessageStable | frontend/src/forms/core/apiErrors.ts:14-26 | a string message read back twice gives the same error, whose code is the string |
| ApplyApiErrors.Target | frontend/src/forms/core/applyApiErrors.ts:24 | `_global` is reported under `root`; every other field under its own name |
| ApplyApiErrors.ExpectedCalls | frontend/src/forms/core/applyApiErrors.ts:21-30 | at most one call per entry, each of type "server" |
| ApplyApiErrors.ApplyApiErrorsToForm | frontend/src/forms/core/applyApiErrors.ts:9-36 | without an `errors` object it returns false and calls nothing; with `errors: null` it throws; otherwise it returns true after exactly the specified calls, in entry order |
| ApplyApiErrors.ExpectedCallsMembership | frontend/src/forms/core/applyApiErrors.ts:21-30 | a call is made exactly when some entry is an array with a truthy first element, and it carries that first element as its message |
| ApplyApiErrors.AtMostOneCallPerField | frontend/src/forms/core/applyApiErrors.ts:21-30 | when the error object does not hold both `_global` and `root`, no form field receives two `setError` calls |
| Js.CodeUnits | frontend/src/components/ui/Toasts.tsx:24 | a character takes one code unit exactly when it is inside the Basic Multilingual Plane, and otherwise two |
| Js.JsLength | frontend/src/components/ui/Toasts.tsx:24 | `length` is between the number of characters and twice it, and equals it exactly when every character is inside the Basic Multilingual Plane |
| Js.EncodeChar | frontend/src/components/ui/Toasts.tsx:24 | a character is one unit equal to itself, or a high surrogate followed by a low surrogate that decode back to it |
| Js.Utf16 | frontend/src/components/ui/Toasts.tsx:24 | the code units of a string are as many as `length` says |
| Toasts.Truncate | frontend/src/components/ui/Toasts.tsx:4-24 | a message within the cap is shown as it is; a longer one keeps its first 199 units and ends with an ellipsis at exactly 200; never more than 200 |
| Toasts.TruncateKeepsPrefix | frontend/src/components/ui/Toasts.tsx:24 | the shown text starts with the message's first `min(length, 199)` units |
| Toasts.TruncateIdempotent | frontend/src/components/ui/Toasts.tsx:24 | truncating a shown message again changes nothing |
| Toasts.ShortMessageShown | frontend/src/components/ui/Toasts.tsx:24 | a message whose `length` is at most 200 is shown whole |
| AuthPanel.Toggled | frontend/src/auth/AuthPanelContext.tsx:19 | the result is the panel asked for or none; none exactly when that panel was open or none was asked for |
| AuthPanel.ToggleTwice | frontend/src/auth/AuthPanelContext.tsx:19 | toggling the same panel twice reopens it if it was open, and otherwise closes everything |
| AuthPanel.ToggleNone | frontend/src/auth/AuthPanelContext.tsx:19 | toggling with null always leaves no panel open |
| AuthPanel.AuthPanelState.constructor | frontend/src/auth/AuthPanelContext.tsx:16 | no panel is open at first |
| AuthPanel.AuthPanelState.OpenPanel | frontend/src/auth/AuthPanelContext.tsx:18 | the panel asked for is open, whatever was open before |
| AuthPanel.AuthPanelState.TogglePanel | frontend/src/auth/AuthPanelContext.tsx:19 | the new panel is the toggle of the old one |
| AuthPanel.AuthPanelState.ClosePanel | frontend/src/auth/AuthPanelContext.tsx:20 | no panel is open |
| FormRules.LengthIssues | frontend/src/forms/auth/LoginForm.tsx:13-33 | a too-short issue with `min` exactly when `length` in UTF-16 code units is below the lower bound, a too-long issue with `max` exactly when it is above the upper bound, all under the field's path |
| FormRules.AstralPasswordLength | frontend/src/forms/auth/LoginForm.tsx:36 | two characters outside the Basic Multilingual Plane have length 4 and pass the password minimum of 3 |
| FormRules.LengthIssuesWithinBounds | frontend/src/forms/auth/LoginForm.tsx:13-33 | with ordered bounds there is at most one issue, and none exactly within the bounds |
| FormRules.RulesOrdered | frontend/src/forms/core/constants.ts:1-4 | both pairs of bounds are in order |
| FormRules.IssuesForConcat | frontend/src/forms/auth/LoginForm.tsx:12-56 | the issues of one field, read off a concatenation, are read off each part |
| FormRules.IssuesForLength | frontend/src/forms/auth/LoginForm.tsx:13-33 | a field's length issues are all its own and none of another field's |
| LoginForm.LoginIssues | frontend/src/forms/auth/LoginForm.tsx:12-56 | issues only under `identifier` and `password`; none exactly when both untrimmed lengths are within their bounds |
| LoginForm.LoginFieldIssues | frontend/src/forms/auth/LoginForm.tsx:12-56 | each field gets exactly its own length issues, at most one |
| ChangeUsernameForm.ChangeUsernameIssues | frontend/src/forms/settings/ChangeUsernameForm.tsx:12-57 | issues only under `username_new` and `password`; none exactly when both are within their bounds |
| ChangeUsernameForm.ChangeUsernameFieldIssues | frontend/src/forms/settings/ChangeUsernameForm.tsx:12-57 | each checked field gets exactly its own length issues, at most one; `username_current` gets none |
| ChangePasswordForm.ChangePasswordFieldIssues | frontend/src/forms/settings/ChangePasswordForm.tsx:14-81 | no field issue exactly when all three passwords are within the bounds; the mismatch issue is never a field issue |
| ChangePasswordForm.RefineIssues | frontend/src/forms/settings/ChangePasswordForm.tsx:82-91 | the refine adds nothing or exactly the mismatch issue under `new_password_confirm`; only when the new passwords are empty or differ; always then when the fields are clean |
| ChangePasswordForm.MismatchReported | frontend/src/forms/settings/ChangePasswordForm.tsx:14-91 | the mismatch issue appears only when the new passwords disagree, and with clean fields exactly then |
| ChangePasswordForm.ChangePasswordPerField | frontend/src/forms/settings/ChangePasswordForm.tsx:14-91 | the current and new passwords get exactly their own length issues, at most one each, and never the mismatch |
| ChangePasswordForm.AcceptsMatchingPasswords | frontend/src/forms/settings/ChangePasswordForm.tsx:14-91 | equal new passwords within the bounds, with a current password within them, pass the whole schema |
| ChangeEmailForm.LeadingSpace | frontend/src/forms/settings/ChangeEmailForm.tsx:17 | the count covers white space only and stops at the first other character |
| ChangeEmailForm.TrailingSpace | frontend/src/forms/settings/ChangeEmailForm.tsx:17 | the count covers white space only and stops at the last other character |
| ChangeEmailForm.Trim | frontend/src/forms/settings/ChangeEmailForm.tsx:17 | the result is a slice of the input with no white space at either end, empty exactly when the input is all white space |
| ChangeEmailForm.TrimIdempotent | frontend/src/forms/settings/ChangeEmailForm.tsx:17 | trimming twice is trimming once |
| ChangeEmailForm.EmailPatternShape | frontend/src/forms/core/constants.ts:6 | the regular expression accepts exactly the strings with no white space and a single `@` with something before it, followed by a `.` that is neither first nor last in the domain |
| ChangeEmailForm.EmailIssues | frontend/src/forms/settings/ChangeEmailForm.tsx:15-36 | on the trimmed value: exactly REQUIRED when it is empty; otherwise exactly INVALID_EMAIL when it has the wrong shape; no issue exactly when it is non-empty and well-shaped |
| ChangeEmailForm.ChangeEmailIssues | frontend/src/forms/settings/ChangeEmailForm.tsx:14-59 | no issue exactly when the trimmed e-mail is well-shaped and the password is within its bounds |
| DeleteAccountForm.DeleteAccountIssues | frontend/src/forms/settings/DeleteAccountForm.tsx:15-39 | at most one issue, under `password`, and none exactly within the password bounds; `username_current` is never checked |
| DeleteAccountForm.DeleteAccountFlow.constructor | frontend/src/forms/settings/DeleteAccountForm.tsx:47-48 | the modal is closed, nothing is pending and nothing was sent |
| DeleteAccountForm.DeleteAccountFlow.Submit | frontend/src/forms/settings/DeleteAccountForm.tsx:65-68 | accepted data is only stored and the modal opened; no deletion is requested; rejected data changes nothing; only accepted data is ever pending |
| DeleteAccountForm.DeleteAccountFlow.ConfirmModal | frontend/src/forms/settings/DeleteAccountForm.tsx:71-84 | without pending data nothing happens; otherwise the pending password is sent once, a success toast follows only a successful call, and the modal closes and the data is cleared either way |
| DeleteAccountForm.DeleteAccountFlow.Close | frontend/src/forms/settings/DeleteAccountForm.tsx:93 | the modal closes and the pending data stays |

## Left out

- Django itself is not part of this model: the ORM queries, password hashing, `validate_email`, token creation and the request context. Each is a function-valued field of `UserStore.Env`, and the model records the calls made to them.
- `remove_empty_list_fields` and `validate_username_format` are imported by the serializers but their code is not part of this model. The first is assumed to drop exactly the fields whose list is empty. The second is an `Env` field whose entries are passed through unchanged.
- The values in `config.constants` are not part of this model. They are taken to be the frontend's bounds (identifier 2 to 100, password 3 to 128).
- `MultipleObjectsReturned` from the login lookup by e-mail is not modelled. A lookup that finds nobody is modelled, and so is an invalid e-mail.
- Serializers.RegisterValidate: like the two members below, it uses the corrected validators listed under "## Findings". As written, a taken username makes `validate_username_unique` raise AttributeError before the format check and the e-mail query run. A well-formed taken e-mail makes `validate_email_register` raise AttributeError too. Either way the exception handler's fall-through answers 500 SERVER_ERROR instead of a ValidationError. The as-written behaviour is modelled only at validator level (`Validators.ValidateUsernameUniqueAsWritten`, `Validators.EmailRegisterAsWritten`).
- Serializers.RegisterFieldChecks: uses the corrected validators, so for a taken username it states a full error map and a trace that includes the e-mail query, where the code as written raises AttributeError first.
- Serializers.RegisterEmailEntry: uses the corrected e-mail validator, so it states EMAIL_TAKEN where the code as written raises AttributeError.
- DRF's field parsing runs before `validate` and is not modelled: the model's `attrs` are the values after it. Every serializer field is a `CharField` with the default `trim_whitespace=True`, so a value of spaces arrives as the empty string (and gets BLANK), and surrounding spaces are cut before the length checks.
- The insertion order of Python dictionaries is not modelled; error maps are Dafny maps.
- DRF's conversion of exception details into `ErrorDetail` objects, and DRF's default `exception_handler`, are inputs: a detail is already a dict, list or single item, and DRF's answer is a parameter of `ExceptionHandler.CustomExceptionHandler`.
- ExceptionHandler.Upper: only ASCII letters are upper-cased, because Python's full Unicode case mapping (where a character can grow into several) is out of scope.
- Dafny characters are Unicode scalar values, so a lone surrogate cannot be a character. The frontend's lengths and the toast cut therefore work on UTF-16 code units (`Js.Utf16`, `Js.JsLength`). How a toast that ends in the lone high surrogate left by the cut is rendered is not modelled. Backend lengths are Python's `len`, one per character.
- ChangePasswordForm.RefineIssues: whether zod runs the object `refine` after the field checks already reported issues depends on the zod version. This is the `refineRuns` parameter. With clean fields the refine always runs.
- Client.ApiClient.HandleResponseError: the refresh call is a parameter, and its response is taken to be well formed (`res.data.data.access` present). Concurrent handlers that share `isRefreshing` are modelled only by the lock's value on entry. Waiting for another handler's refresh and the resent request's own outcome are not modelled.
- JavaScript lists an object's integer-like keys first in `Object.entries`. This reordering is not modelled: entries keep the order the object was built in.
- Rendering, i18n, the toast UI, `useFormWithApi` and the network call inside `deleteAccount` are not part of this model. The delete call's outcome is a parameter of `ConfirmModal`.
- The zod schema of the registration form and the React components around the forms are not in the modelled core.

## Findings

| source | as written | input that shows it | evidently intended | confidence | as-written member | corrected member |
|---|---|---|---|---|---|---|
| backend/config/validators.py:41 | `validate_username_unique` builds its error with `EC.AuthFailed.USERNAME_TAKEN`, a member `EC.AuthFailed` does not define (it is in `EC.Validation`), so the lookup raises AttributeError | registering with a username that already exists in the user table | report USERNAME_TAKEN under `username`, as `EC.Validation.USERNAME_TAKEN` | not executed | Validators.UsernameTakenAsWritten | Validators.ValidateUsernameUnique |
| backend/config/validators.py:58 | `validate_email_register` builds its error with `EC.AuthFailed.EMAIL_TAKEN`, also undefined there, so a taken address raises AttributeError | registering with a well-formed e-mail address that already exists in the user table | report EMAIL_TAKEN under `email`, as `EC.Validation.EMAIL_TAKEN` | not executed | Validators.EmailTakenAsWritten | Validators.EmailRegisterCases |
