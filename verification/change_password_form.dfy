/** `ChangePasswordSchema`: the client-side checks of the change-password form. */
module ChangePasswordForm {
  import opened Js
  import opened FormRules

  const MISMATCH_ISSUE := FieldIssue("new_password_confirm", PlainMessage("VALIDATION.PASSWORD_MISMATCH"))

  /** The object-level `refine`: both new passwords are non-empty and equal. */
  predicate NewPasswordsAgree(newPassword: string, newPasswordConfirm: string)
  {
    |newPassword| > 0 && |newPasswordConfirm| > 0 && newPassword == newPasswordConfirm
  }

  /** The three field length rules, all with the password bounds, in field order. */
  function ChangePasswordFieldIssues(currentPassword: string, newPassword: string, newPasswordConfirm: string)
    : (r: seq<FieldIssue>)
    ensures r == [] <==> MIN_PASSWORD_LEN <= JsLength(currentPassword) <= MAX_PASSWORD_LEN
                         && MIN_PASSWORD_LEN <= JsLength(newPassword) <= MAX_PASSWORD_LEN
                         && MIN_PASSWORD_LEN <= JsLength(newPasswordConfirm) <= MAX_PASSWORD_LEN
    ensures MISMATCH_ISSUE !in r
  {
    LengthIssuesWithinBounds("current_password", currentPassword, PASSWORD_RULE);
    LengthIssuesWithinBounds("new_password", newPassword, PASSWORD_RULE);
    LengthIssuesWithinBounds("new_password_confirm", newPasswordConfirm, PASSWORD_RULE);
    LengthIssues("current_password", currentPassword, PASSWORD_RULE)
    + LengthIssues("new_password", newPassword, PASSWORD_RULE)
    + LengthIssues("new_password_confirm", newPasswordConfirm, PASSWORD_RULE)
  }

  /**
   * The refine's contribution: the mismatch issue when the refine runs and
   * fails. Whether zod runs an object refine after its fields already
   * reported issues depends on the zod version, so `refineRuns` says it;
   * with clean fields it always runs.
   */
  function RefineIssues(fieldsClean: bool, newPassword: string, newPasswordConfirm: string, refineRuns: bool)
    : (r: seq<FieldIssue>)
    ensures r == [] || r == [MISMATCH_ISSUE]
    ensures r != [] ==> !NewPasswordsAgree(newPassword, newPasswordConfirm)
    ensures fieldsClean ==> (r != [] <==> !NewPasswordsAgree(newPassword, newPasswordConfirm))
  {
    if (fieldsClean || refineRuns) && !NewPasswordsAgree(newPassword, newPasswordConfirm) then [MISMATCH_ISSUE] else []
  }

  /** The issues `ChangePasswordSchema` reports: the field issues, then the refine's. */
  function ChangePasswordIssues(currentPassword: string, newPassword: string, newPasswordConfirm: string,
                                refineRuns: bool): seq<FieldIssue>
  {
    var fields := ChangePasswordFieldIssues(currentPassword, newPassword, newPasswordConfirm);
    fields + RefineIssues(fields == [], newPassword, newPasswordConfirm, refineRuns)
  }

  /** The mismatch issue appears only when the refine fails, and always does when the fields are clean. */
  lemma MismatchReported(currentPassword: string, newPassword: string, newPasswordConfirm: string, refineRuns: bool)
    ensures var r := ChangePasswordIssues(currentPassword, newPassword, newPasswordConfirm, refineRuns);
            && (MISMATCH_ISSUE in r ==> !NewPasswordsAgree(newPassword, newPasswordConfirm))
            && (ChangePasswordFieldIssues(currentPassword, newPassword, newPasswordConfirm) == [] ==>
                  (MISMATCH_ISSUE in r <==> !NewPasswordsAgree(newPassword, newPasswordConfirm)))
  {
  }

  /** One field's issues, read off the three length rules and the refine. */
  lemma {:induction false} IssuesForParts(a: seq<FieldIssue>, b: seq<FieldIssue>, c: seq<FieldIssue>,
                                          d: seq<FieldIssue>, path: string)
    ensures IssuesFor(a + b + c + d, path) == IssuesFor(a, path) + IssuesFor(b, path) + IssuesFor(c, path) + IssuesFor(d, path)
  {
    IssuesForConcat(a + b + c, d, path);
    IssuesForConcat(a + b, c, path);
    IssuesForConcat(a, b, path);
  }

  /**
   * The refine reports only under `new_password_confirm`, with the plain
   * string, never under `new_password` or `current_password`; those two
   * fields get exactly their own length issues, at most one each.
   */
  lemma {:induction false} ChangePasswordPerField(currentPassword: string, newPassword: string,
                                                  newPasswordConfirm: string, refineRuns: bool)
    ensures var r := ChangePasswordIssues(currentPassword, newPassword, newPasswordConfirm, refineRuns);
            && IssuesFor(r, "current_password") == LengthIssues("current_password", currentPassword, PASSWORD_RULE)
            && IssuesFor(r, "new_password") == LengthIssues("new_password", newPassword, PASSWORD_RULE)
            && |IssuesFor(r, "current_password")| <= 1 && |IssuesFor(r, "new_password")| <= 1
  {
    var a := LengthIssues("current_password", currentPassword, PASSWORD_RULE);
    var b := LengthIssues("new_password", newPassword, PASSWORD_RULE);
    var c := LengthIssues("new_password_confirm", newPasswordConfirm, PASSWORD_RULE);
    var d := RefineIssues(a + b + c == [], newPassword, newPasswordConfirm, refineRuns);
    assert ChangePasswordIssues(currentPassword, newPassword, newPasswordConfirm, refineRuns) == a + b + c + d;
    IssuesForParts(a, b, c, d, "current_password");
    IssuesForParts(a, b, c, d, "new_password");
    IssuesForLength("current_password", currentPassword, PASSWORD_RULE, "new_password");
    IssuesForLength("new_password", newPassword, PASSWORD_RULE, "current_password");
    IssuesForLength("new_password_confirm", newPasswordConfirm, PASSWORD_RULE, "current_password");
    IssuesForLength("new_password_confirm", newPasswordConfirm, PASSWORD_RULE, "new_password");
    LengthIssuesWithinBounds("current_password", currentPassword, PASSWORD_RULE);
    LengthIssuesWithinBounds("new_password", newPassword, PASSWORD_RULE);
    assert IssuesFor(d, "current_password") == [] && IssuesFor(d, "new_password") == [];
  }

  /** Equal new passwords within the bounds, with a current password within them, pass the whole schema. */
  lemma AcceptsMatchingPasswords(currentPassword: string, newPassword: string, refineRuns: bool)
    requires MIN_PASSWORD_LEN <= JsLength(currentPassword) <= MAX_PASSWORD_LEN
    requires MIN_PASSWORD_LEN <= JsLength(newPassword) <= MAX_PASSWORD_LEN
    ensures ChangePasswordIssues(currentPassword, newPassword, newPassword, refineRuns) == []
  {
  }
}
