/**
 * `changeEmailSchema`: the client-side checks of the change-email form. The
 * email is trimmed first, then checked for presence and, when present,
 * against the shape `EMAIL_REGEX` (`^[^\s@]+@[^\s@]+\.[^\s@]+$`) describes.
 */
module ChangeEmailForm {
  import opened Js
  import opened FormRules

  /** The characters JavaScript's `trim` removes and the regex class `\s` matches: white space and line terminators. */
  predicate IsJsWhitespace(c: char)
  {
    c in {'\U{9}', '\U{A}', '\U{B}', '\U{C}', '\U{D}', '\U{20}', '\U{A0}', '\U{1680}',
          '\U{2000}', '\U{2001}', '\U{2002}', '\U{2003}', '\U{2004}', '\U{2005}', '\U{2006}', '\U{2007}',
          '\U{2008}', '\U{2009}', '\U{200A}', '\U{2028}', '\U{2029}', '\U{202F}', '\U{205F}', '\U{3000}',
          '\U{FEFF}'}
  }

  /** How many white-space characters `s` starts with. */
  function LeadingSpace(s: string): (n: nat)
    ensures n <= |s|
    ensures forall i :: 0 <= i < n ==> IsJsWhitespace(s[i])
    ensures n < |s| ==> !IsJsWhitespace(s[n])
  {
    if s != [] && IsJsWhitespace(s[0]) then 1 + LeadingSpace(s[1..]) else 0
  }

  /** How many white-space characters `s` ends with. */
  function TrailingSpace(s: string): (n: nat)
    ensures n <= |s|
    ensures forall i :: |s| - n <= i < |s| ==> IsJsWhitespace(s[i])
    ensures n < |s| ==> !IsJsWhitespace(s[|s| - n - 1])
  {
    if s != [] && IsJsWhitespace(s[|s| - 1]) then 1 + TrailingSpace(s[..|s| - 1]) else 0
  }

  /** When the white space at both ends overlaps, the whole string is white space. */
  lemma TrimmedAway(s: string, a: nat, b: nat)
    requires a <= |s| && b == TrailingSpace(s[a..])
    requires forall i :: 0 <= i < a ==> IsJsWhitespace(s[i])
    ensures b == |s| - a ==> forall i :: 0 <= i < |s| ==> IsJsWhitespace(s[i])
  {
    forall i | a <= i < |s| && b == |s| - a
      ensures IsJsWhitespace(s[i])
    {
      assert s[i] == s[a..][i - a];
    }
  }

  /**
   * `String.prototype.trim`: the middle of `s` left after removing the
   * white space at both ends; it neither starts nor ends with white space.
   */
  function Trim(s: string): (r: string)
    ensures r != [] ==> !IsJsWhitespace(r[0]) && !IsJsWhitespace(r[|r| - 1])
    ensures exists i, j :: 0 <= i <= j <= |s| && r == s[i..j]
    ensures r == [] <==> forall i :: 0 <= i < |s| ==> IsJsWhitespace(s[i])
  {
    var a := LeadingSpace(s);
    var t := s[a..];
    var b := TrailingSpace(t);
    assert t[..|t| - b] == s[a..|s| - b];
    TrimmedAway(s, a, b);
    t[..|t| - b]
  }

  /** Trimming a trimmed string changes nothing. */
  lemma {:induction false} TrimIdempotent(s: string)
    ensures Trim(Trim(s)) == Trim(s)
  {
    var r := Trim(s);
    assert LeadingSpace(r) == 0;
    assert r[0..] == r;
    assert TrailingSpace(r) == 0;
    assert r[..|r| - 0] == r;
  }

  /** A character the regex class `[^\s@]` matches. */
  predicate PlainChar(c: char)
  {
    !IsJsWhitespace(c) && c != '@'
  }

  predicate AllPlain(t: string)
  {
    forall i :: 0 <= i < |t| ==> PlainChar(t[i])
  }

  /**
   * What `EMAIL_REGEX.test(s)` accepts, as the regex reads: one or more
   * plain characters, `@`, one or more plain characters, `.`, one or more
   * plain characters, and nothing around them.
   */
  predicate EmailPattern(s: string)
  {
    exists k, d :: 0 < k && k + 1 < d && d + 1 < |s| && s[k] == '@' && s[d] == '.'
                   && AllPlain(s[..k]) && AllPlain(s[k + 1..d]) && AllPlain(s[d + 1..])
  }

  /** `s` holds a single `@`, at index `k`. */
  predicate OnlyAtSign(s: string, k: int)
  {
    forall i :: 0 <= i < |s| && s[i] == '@' ==> i == k
  }

  /**
   * The accepted shape in plain words: no white space, exactly one `@` with
   * something before it, and after it a `.` that is neither the first nor
   * the last character of the domain.
   */
  predicate EmailShape(s: string)
  {
    (forall i :: 0 <= i < |s| ==> !IsJsWhitespace(s[i]))
    && exists k, d :: 0 < k && k + 1 < d && d + 1 < |s| && s[k] == '@' && s[d] == '.' && OnlyAtSign(s, k)
  }

  /** Every string the regex accepts has the plain-words shape. */
  lemma PatternHasShape(s: string)
    requires EmailPattern(s)
    ensures EmailShape(s)
  {
    var k, d :| 0 < k && k + 1 < d && d + 1 < |s| && s[k] == '@' && s[d] == '.'
                && AllPlain(s[..k]) && AllPlain(s[k + 1..d]) && AllPlain(s[d + 1..]);
    forall i | 0 <= i < |s| && i != k && i != d
      ensures PlainChar(s[i])
    {
      if i < k {
        assert s[i] == s[..k][i];
      } else if i < d {
        assert s[i] == s[k + 1..d][i - k - 1];
      } else {
        assert s[i] == s[d + 1..][i - d - 1];
      }
    }
    assert OnlyAtSign(s, k);
  }

  /** Every string of the plain-words shape is accepted by the regex. */
  lemma ShapeMatchesPattern(s: string)
    requires EmailShape(s)
    ensures EmailPattern(s)
  {
    var k, d :| 0 < k && k + 1 < d && d + 1 < |s| && s[k] == '@' && s[d] == '.' && OnlyAtSign(s, k);
    forall i | 0 <= i < |s| && i != k
      ensures PlainChar(s[i])
    {
      assert s[i] != '@';
    }
    var local, domain, top := s[..k], s[k + 1..d], s[d + 1..];
    forall j | 0 <= j < |local|
      ensures PlainChar(local[j])
    {
      assert local[j] == s[j];
    }
    forall j | 0 <= j < |domain|
      ensures PlainChar(domain[j])
    {
      assert domain[j] == s[k + 1 + j];
    }
    forall j | 0 <= j < |top|
      ensures PlainChar(top[j])
    {
      assert top[j] == s[d + 1 + j];
    }
  }

  /** The regex and the plain-words shape accept the same strings. */
  lemma EmailPatternShape(s: string)
    ensures EmailPattern(s) <==> EmailShape(s)
  {
    if EmailPattern(s) {
      PatternHasShape(s);
    }
    if EmailShape(s) {
      ShapeMatchesPattern(s);
    }
  }

  const REQUIRED_ISSUE := FieldIssue("email", ErrorMessage("VALIDATION.REQUIRED", map[]))
  const INVALID_EMAIL_ISSUE := FieldIssue("email", ErrorMessage("VALIDATION.INVALID_EMAIL", map[]))

  /**
   * The email's `superRefine`, on the trimmed value: REQUIRED when it is
   * empty (and then the regex is not consulted), INVALID_EMAIL when it does
   * not have the email shape; at most one issue.
   */
  function EmailIssues(email: string): (r: seq<FieldIssue>)
    ensures Trim(email) == [] ==> r == [REQUIRED_ISSUE]
    ensures Trim(email) != [] ==> (r == [INVALID_EMAIL_ISSUE] <==> !EmailShape(Trim(email)))
    ensures r == [] <==> Trim(email) != [] && EmailShape(Trim(email))
  {
    var val := Trim(email);
    EmailPatternShape(val);
    if val == [] then [REQUIRED_ISSUE]
    else if !EmailPattern(val) then [INVALID_EMAIL_ISSUE]
    else []
  }

  /** The issues `changeEmailSchema` reports: the email's, then the password's length rule. */
  function ChangeEmailIssues(email: string, password: string): (r: seq<FieldIssue>)
    ensures r == [] <==> Trim(email) != [] && EmailShape(Trim(email))
                         && MIN_PASSWORD_LEN <= JsLength(password) <= MAX_PASSWORD_LEN
  {
    LengthIssuesWithinBounds("password", password, PASSWORD_RULE);
    EmailIssues(email) + LengthIssues("password", password, PASSWORD_RULE)
  }
}
