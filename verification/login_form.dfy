/** `loginSchema`: the client-side checks of the login form. */
module LoginForm {
  import opened Js
  import opened FormRules

  /** The issues `loginSchema` reports: the identifier's length rule, then the password's. */
  function LoginIssues(identifier: string, password: string): (r: seq<FieldIssue>)
    ensures forall k :: 0 <= k < |r| ==> r[k].path in {"identifier", "password"}
    ensures r == [] <==> MIN_IDENTIFIER_LEN <= JsLength(identifier) <= MAX_IDENTIFIER_LEN
                         && MIN_PASSWORD_LEN <= JsLength(password) <= MAX_PASSWORD_LEN
  {
    LengthIssuesWithinBounds("identifier", identifier, IDENTIFIER_RULE);
    LengthIssuesWithinBounds("password", password, PASSWORD_RULE);
    LengthIssues("identifier", identifier, IDENTIFIER_RULE) + LengthIssues("password", password, PASSWORD_RULE)
  }

  /**
   * Each field gets its own length issues and only those: at most one, a
   * too-short issue with `min` below the lower bound and a too-long issue
   * with `max` above the upper one, measured on the untrimmed value.
   */
  lemma {:induction false} LoginFieldIssues(identifier: string, password: string)
    ensures IssuesFor(LoginIssues(identifier, password), "identifier") == LengthIssues("identifier", identifier, IDENTIFIER_RULE)
    ensures IssuesFor(LoginIssues(identifier, password), "password") == LengthIssues("password", password, PASSWORD_RULE)
    ensures |IssuesFor(LoginIssues(identifier, password), "identifier")| <= 1
    ensures |IssuesFor(LoginIssues(identifier, password), "password")| <= 1
  {
    var a := LengthIssues("identifier", identifier, IDENTIFIER_RULE);
    var b := LengthIssues("password", password, PASSWORD_RULE);
    IssuesForConcat(a, b, "identifier");
    IssuesForConcat(a, b, "password");
    IssuesForLength("identifier", identifier, IDENTIFIER_RULE, "password");
    IssuesForLength("password", password, PASSWORD_RULE, "identifier");
    LengthIssuesWithinBounds("identifier", identifier, IDENTIFIER_RULE);
    LengthIssuesWithinBounds("password", password, PASSWORD_RULE);
  }
}
