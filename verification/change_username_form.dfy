/** `changeUsernameSchema`: the client-side checks of the change-username form. */
module ChangeUsernameForm {
  import opened Js
  import opened FormRules

  /**
   * The issues `changeUsernameSchema` reports: `username_current` is any
   * string and is never checked; the new username's length rule, then the
   * password's.
   */
  function ChangeUsernameIssues(usernameCurrent: string, usernameNew: string, password: string): (r: seq<FieldIssue>)
    ensures forall k :: 0 <= k < |r| ==> r[k].path in {"username_new", "password"}
    ensures r == [] <==> MIN_IDENTIFIER_LEN <= JsLength(usernameNew) <= MAX_IDENTIFIER_LEN
                         && MIN_PASSWORD_LEN <= JsLength(password) <= MAX_PASSWORD_LEN
  {
    LengthIssuesWithinBounds("username_new", usernameNew, IDENTIFIER_RULE);
    LengthIssuesWithinBounds("password", password, PASSWORD_RULE);
    LengthIssues("username_new", usernameNew, IDENTIFIER_RULE) + LengthIssues("password", password, PASSWORD_RULE)
  }

  /** Each checked field gets exactly its own length issues, at most one; the current username gets none. */
  lemma {:induction false} ChangeUsernameFieldIssues(usernameCurrent: string, usernameNew: string, password: string)
    ensures var r := ChangeUsernameIssues(usernameCurrent, usernameNew, password);
            && IssuesFor(r, "username_new") == LengthIssues("username_new", usernameNew, IDENTIFIER_RULE)
            && IssuesFor(r, "password") == LengthIssues("password", password, PASSWORD_RULE)
            && IssuesFor(r, "username_current") == []
            && |IssuesFor(r, "username_new")| <= 1 && |IssuesFor(r, "password")| <= 1
  {
    var a := LengthIssues("username_new", usernameNew, IDENTIFIER_RULE);
    var b := LengthIssues("password", password, PASSWORD_RULE);
    IssuesForConcat(a, b, "username_new");
    IssuesForConcat(a, b, "password");
    IssuesForConcat(a, b, "username_current");
    IssuesForLength("username_new", usernameNew, IDENTIFIER_RULE, "password");
    IssuesForLength("password", password, PASSWORD_RULE, "username_new");
    IssuesForLength("username_new", usernameNew, IDENTIFIER_RULE, "username_current");
    IssuesForLength("password", password, PASSWORD_RULE, "username_current");
    LengthIssuesWithinBounds("username_new", usernameNew, IDENTIFIER_RULE);
    LengthIssuesWithinBounds("password", password, PASSWORD_RULE);
  }
}
