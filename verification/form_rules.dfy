/**
 * What the zod schemas of the frontend forms share: the length bounds, the
 * issue a `superRefine` adds, and the two-sided length check every length
 * rule repeats.
 */
module FormRules {
  import opened Js

  const MIN_IDENTIFIER_LEN := 2
  const MAX_IDENTIFIER_LEN := 100
  const MIN_PASSWORD_LEN := 3
  const MAX_PASSWORD_LEN := 128

  /** An issue's message: an `ApiError` passed through `rhfMessage`, or a plain string. */
  datatype IssueMessage =
    | ErrorMessage(code: string, params: map<string, int>)
    | PlainMessage(text: string)

  /** An issue as zod reports it: the path of the field it belongs to, and its message. */
  datatype FieldIssue = FieldIssue(path: string, message: IssueMessage)

  /** The codes and bounds of one length rule. */
  datatype LengthRule = LengthRule(min: nat, max: nat, tooShort: string, tooLong: string)

  const IDENTIFIER_RULE := LengthRule(MIN_IDENTIFIER_LEN, MAX_IDENTIFIER_LEN,
                                      "VALIDATION.USERNAME_TOO_SHORT", "VALIDATION.USERNAME_TOO_LONG")
  const PASSWORD_RULE := LengthRule(MIN_PASSWORD_LEN, MAX_PASSWORD_LEN,
                                    "VALIDATION.PASSWORD_TOO_SHORT", "VALIDATION.PASSWORD_TOO_LONG")

  /**
   * The length `superRefine`: a too-short issue carrying `min`, then a
   * too-long issue carrying `max`, each added when its test fails. Lengths
   * are `val.length` of the raw string, in UTF-16 code units.
   */
  function LengthIssues(path: string, val: string, rule: LengthRule): (r: seq<FieldIssue>)
    ensures JsLength(val) < rule.min <==> FieldIssue(path, ErrorMessage(rule.tooShort, map["min" := rule.min])) in r
    ensures JsLength(val) > rule.max <==> FieldIssue(path, ErrorMessage(rule.tooLong, map["max" := rule.max])) in r
    ensures forall k :: 0 <= k < |r| ==> r[k].path == path
  {
    var short := FieldIssue(path, ErrorMessage(rule.tooShort, map["min" := rule.min]));
    var long := FieldIssue(path, ErrorMessage(rule.tooLong, map["max" := rule.max]));
    assert "min" !in long.message.params;
    (if JsLength(val) < rule.min then [short] else []) + (if JsLength(val) > rule.max then [long] else [])
  }

  /** With bounds in order a field gets at most one length issue, and none exactly when its length is within them. */
  lemma LengthIssuesWithinBounds(path: string, val: string, rule: LengthRule)
    requires rule.min <= rule.max
    ensures |LengthIssues(path, val, rule)| <= 1
    ensures LengthIssues(path, val, rule) == [] <==> rule.min <= JsLength(val) <= rule.max
  {
  }

  /**
   * Two characters outside the Basic Multilingual Plane make a string of
   * length 4, so they pass the password rule's minimum of 3.
   */
  lemma AstralPasswordLength()
    ensures JsLength("\U{1F600}\U{1F600}") == 4
    ensures LengthIssues("password", "\U{1F600}\U{1F600}", PASSWORD_RULE) == []
  {
  }

  /** Both bounds used by the forms are in order. */
  lemma RulesOrdered()
    ensures IDENTIFIER_RULE.min <= IDENTIFIER_RULE.max && PASSWORD_RULE.min <= PASSWORD_RULE.max
  {
  }

  /** A rule's issue messages never read as the other bound's. */
  lemma LengthIssueCodes(path: string, val: string, rule: LengthRule)
    requires rule.tooShort != rule.tooLong
    ensures forall k :: 0 <= k < |LengthIssues(path, val, rule)| ==>
              LengthIssues(path, val, rule)[k].message.code in {rule.tooShort, rule.tooLong}
  {
  }

  /** The issues reported under one field, in order. */
  function IssuesFor(issues: seq<FieldIssue>, path: string): (r: seq<FieldIssue>)
    ensures |r| <= |issues|
    ensures forall k :: 0 <= k < |r| ==> r[k].path == path
  {
    if issues == [] then []
    else (if issues[0].path == path then [issues[0]] else []) + IssuesFor(issues[1..], path)
  }

  /** Reading one field's issues off a concatenation reads them off each part. */
  lemma {:induction false} IssuesForConcat(a: seq<FieldIssue>, b: seq<FieldIssue>, path: string)
    ensures IssuesFor(a + b, path) == IssuesFor(a, path) + IssuesFor(b, path)
  {
    if a == [] {
      assert a + b == b;
    } else {
      assert (a + b)[0] == a[0];
      assert (a + b)[1..] == a[1..] + b;
      IssuesForConcat(a[1..], b, path);
    }
  }

  /** A field's own length issues are all its own, and none of another field's. */
  lemma {:induction false} IssuesForLength(path: string, val: string, rule: LengthRule, other: string)
    ensures IssuesFor(LengthIssues(path, val, rule), path) == LengthIssues(path, val, rule)
    ensures other != path ==> IssuesFor(LengthIssues(path, val, rule), other) == []
  {
    var r := LengthIssues(path, val, rule);
    if |r| == 2 {
      assert r[1..][1..] == [];
    }
  }
}
