/**
 * The error-accumulation steps the four `validate` methods of the
 * authentication serializers share: every field first gets the REQUIRED
 * check, then (only when it is present) the BLANK check, then (only when its
 * value is truthy and the field is length-checked) the length check.
 */
module SerializerFields {
  import opened Wrappers
  import opened ResponseCodes
  import opened ErrorHelpers
  import opened UserStore
  import opened Validators

  // `config.constants` is not part of this model; its bounds are taken to be
  // those of the frontend (frontend/src/forms/core/constants.ts).
  const MIN_IDENTIFIER_LEN: int := 2
  const MAX_IDENTIFIER_LEN: int := 100
  const MIN_PASSWORD_LEN: int := 3
  const MAX_PASSWORD_LEN: int := 128

  /** How a `validate` call ends. */
  datatype Outcome<T> =
    | Validated(value: T)             // returns normally
    | Invalid(errors: FieldErrors)    // raises ValidationError(errors)
    | AuthFailed(detail: FieldErrors) // raises AuthenticationFailed(detail)

  /** The arguments a serializer passes to `validate_length` for one field. */
  datatype LengthRule = LengthRule(minLen: int, maxLen: int, minCode: ValidationCode, maxCode: ValidationCode)

  const IDENTIFIER_RULE := LengthRule(MIN_IDENTIFIER_LEN, MAX_IDENTIFIER_LEN, UsernameTooShort, UsernameTooLong)
  const PASSWORD_RULE := LengthRule(MIN_PASSWORD_LEN, MAX_PASSWORD_LEN, PasswordTooShort, PasswordTooLong)

  function RuleErrors(value: string, rule: LengthRule): seq<ErrDict>
  {
    LengthErrors(value, Some(rule.minLen), Some(rule.maxLen), Some(rule.minCode.Value()), Some(rule.maxCode.Value()))
  }

  /** The entries one field collects from the REQUIRED and BLANK passes. */
  function RequiredBlank(attrs: Attrs, field: string): seq<ErrDict>
  {
    ValidateRequired(attrs, field) + (if field in attrs then ValidateBlank(attrs[field]) else [])
  }

  /**
   * The entries one field collects from the shared steps, in the order the
   * serializers run them: required, blank, length.
   */
  function BaseFieldErrors(attrs: Attrs, field: string, rule: Option<LengthRule>): seq<ErrDict>
  {
    RequiredBlank(attrs, field)
    + (if rule.Some? && Truthy(Get(attrs, field)) then RuleErrors(Get(attrs, field).value, rule.value) else [])
  }

  /**
   * The three ways a field fares in the shared steps: a missing field gets
   * REQUIRED and nothing else (never BLANK); a present null or empty value
   * gets BLANK and nothing else (never a length code); only a truthy value
   * is length-checked, and then it gets at most one entry.
   */
  lemma BaseFieldCases(attrs: Attrs, field: string, rule: Option<LengthRule>)
    requires rule.Some? ==> rule.value.minLen <= rule.value.maxLen
    ensures field !in attrs ==> BaseFieldErrors(attrs, field, rule) == [Err(Required.Value())]
    ensures field in attrs && !Truthy(attrs[field]) ==> BaseFieldErrors(attrs, field, rule) == [Err(Blank.Value())]
    ensures Truthy(Get(attrs, field)) && rule.None? ==> BaseFieldErrors(attrs, field, rule) == []
    ensures Truthy(Get(attrs, field)) && rule.Some? ==>
              BaseFieldErrors(attrs, field, rule) == RuleErrors(Get(attrs, field).value, rule.value)
              && |BaseFieldErrors(attrs, field, rule)| <= 1
              && (BaseFieldErrors(attrs, field, rule) == [] <==> rule.value.minLen <= |Get(attrs, field).value| <= rule.value.maxLen)
  {
    if Truthy(Get(attrs, field)) && rule.Some? {
      var r := rule.value;
      LengthErrorsWithinBounds(Get(attrs, field).value, r.minLen, r.maxLen, r.minCode.Value(), r.maxCode.Value());
    }
  }

  /** The field names hold no repetition, as a Python tuple literal of field names here never does. */
  predicate Distinct(fields: seq<string>)
  {
    forall i, j :: 0 <= i < j < |fields| ==> fields[i] != fields[j]
  }

  /** One round of the REQUIRED pass keeps the pass's invariant, with `field` added to the fields done. */
  lemma RequiredRound(errors: FieldErrors, r: FieldErrors, attrs: Attrs, done: seq<string>, field: string)
    requires field !in done
    requires forall f :: f in r <==> f in errors || f in done
    requires forall f :: f in r ==> r[f] == Entry(errors, f) + (if f in done then ValidateRequired(attrs, f) else [])
    ensures var r' := SetDefaultExtend(r, field, ValidateRequired(attrs, field));
            && (forall f :: f in r' <==> f in errors || f in done + [field])
            && (forall f :: f in r' ==> r'[f] == Entry(errors, f) + (if f in done + [field] then ValidateRequired(attrs, f) else []))
  {
    SetDefaultExtendFrame(r, field, ValidateRequired(attrs, field));
  }

  /** `for field in fields: errors.setdefault(field, []).extend(validate_required(attrs, field))` */
  method RequiredPass(errors: FieldErrors, attrs: Attrs, fields: seq<string>) returns (r: FieldErrors)
    requires Distinct(fields)
    ensures forall f :: f in r <==> f in errors || f in fields
    ensures forall f :: f in r ==> r[f] == Entry(errors, f) + (if f in fields then ValidateRequired(attrs, f) else [])
  {
    r := errors;
    for i := 0 to |fields|
      invariant forall f :: f in r <==> f in errors || f in fields[..i]
      invariant forall f :: f in r ==> r[f] == Entry(errors, f) + (if f in fields[..i] then ValidateRequired(attrs, f) else [])
    {
      assert fields[i] !in fields[..i];
      RequiredRound(errors, r, attrs, fields[..i], fields[i]);
      assert fields[..i + 1] == fields[..i] + [fields[i]];
      r := SetDefaultExtend(r, fields[i], ValidateRequired(attrs, fields[i]));
    }
    assert fields[..|fields|] == fields;
  }

  /** One round of the BLANK pass keeps the pass's invariant, with `field` added to the fields done. */
  lemma BlankRound(errors: FieldErrors, r: FieldErrors, attrs: Attrs, done: seq<string>, field: string)
    requires field !in done
    requires forall f :: f in r <==> f in errors || (f in done && f in attrs)
    requires forall f :: f in r ==> r[f] == Entry(errors, f) + (if f in done && f in attrs then ValidateBlank(attrs[f]) else [])
    ensures var r' := if field in attrs then SetDefaultExtend(r, field, ValidateBlank(attrs[field])) else r;
            && (forall f :: f in r' <==> f in errors || (f in done + [field] && f in attrs))
            && (forall f :: f in r' ==> r'[f] == Entry(errors, f)
                                          + (if f in done + [field] && f in attrs then ValidateBlank(attrs[f]) else []))
  {
    if field in attrs {
      SetDefaultExtendFrame(r, field, ValidateBlank(attrs[field]));
    }
  }

  /** `for field in fields: if field in attrs: errors.setdefault(field, []).extend(validate_blank(attrs[field]))` */
  method BlankPass(errors: FieldErrors, attrs: Attrs, fields: seq<string>) returns (r: FieldErrors)
    requires Distinct(fields)
    ensures forall f :: f in r <==> f in errors || (f in fields && f in attrs)
    ensures forall f :: f in r ==> r[f] == Entry(errors, f) + (if f in fields && f in attrs then ValidateBlank(attrs[f]) else [])
  {
    r := errors;
    for i := 0 to |fields|
      invariant forall f :: f in r <==> f in errors || (f in fields[..i] && f in attrs)
      invariant forall f :: f in r ==> r[f] == Entry(errors, f) + (if f in fields[..i] && f in attrs then ValidateBlank(attrs[f]) else [])
    {
      assert fields[i] !in fields[..i];
      BlankRound(errors, r, attrs, fields[..i], fields[i]);
      assert fields[..i + 1] == fields[..i] + [fields[i]];
      if fields[i] in attrs {
        r := SetDefaultExtend(r, fields[i], ValidateBlank(attrs[fields[i]]));
      }
    }
    assert fields[..|fields|] == fields;
  }

  /** What the REQUIRED and BLANK passes over `fields` leave in an error map that starts out empty. */
  function PassesMap(attrs: Attrs, fields: seq<string>): (r: FieldErrors)
    ensures forall f :: f in r <==> f in fields
  {
    map f | f in fields :: RequiredBlank(attrs, f)
  }

  /** The REQUIRED and BLANK passes over `fields`, starting from `errors = {}`. */
  method RequiredBlankPasses(attrs: Attrs, fields: seq<string>) returns (r: FieldErrors)
    requires Distinct(fields)
    ensures r == PassesMap(attrs, fields)
  {
    var required := RequiredPass(map[], attrs, fields);
    r := BlankPass(required, attrs, fields);
    forall f | f in r
      ensures r[f] == PassesMap(attrs, fields)[f]
    {
      assert Entry(required, f) == ValidateRequired(attrs, f);
      PassesMapEntry(attrs, fields, f);
    }
    FieldErrorsExtensional(r, PassesMap(attrs, fields));
  }

  /** The error map after the LENGTH step for one field: extended only when the value is truthy. */
  function WithLength(errors: FieldErrors, field: string, value: Option<string>, rule: LengthRule): (r: FieldErrors)
    ensures !Truthy(value) ==> r == errors
    ensures Truthy(value) ==> field in r && r[field] == Entry(errors, field) + RuleErrors(value.value, rule)
  {
    if Truthy(value) then SetDefaultExtend(errors, field, RuleErrors(value.value, rule)) else errors
  }

  /** Each passed field holds what the two passes gave it. */
  lemma PassesMapEntry(attrs: Attrs, fields: seq<string>, field: string)
    requires field in fields
    ensures field in PassesMap(attrs, fields) && PassesMap(attrs, fields)[field] == RequiredBlank(attrs, field)
  {
  }

  /** The LENGTH step on one field leaves every other field as it was. */
  lemma WithLengthFrame(errors: FieldErrors, field: string, value: Option<string>, rule: LengthRule, other: string)
    requires other != field && other in errors
    ensures other in WithLength(errors, field, value, rule)
    ensures WithLength(errors, field, value, rule)[other] == errors[other]
  {
  }

  /** The LENGTH step on a field that already has a list appends to that list. */
  lemma WithLengthEntry(errors: FieldErrors, field: string, value: Option<string>, rule: LengthRule)
    requires field in errors
    ensures field in WithLength(errors, field, value, rule)
    ensures WithLength(errors, field, value, rule)[field]
            == errors[field] + (if Truthy(value) then RuleErrors(value.value, rule) else [])
  {
  }

  /** The LENGTH step on a field that holds what the two passes gave it leaves all three shared steps' entries. */
  lemma LengthAfterPasses(errors: FieldErrors, attrs: Attrs, field: string, rule: LengthRule)
    requires field in errors && errors[field] == RequiredBlank(attrs, field)
    ensures field in WithLength(errors, field, Get(attrs, field), rule)
    ensures WithLength(errors, field, Get(attrs, field), rule)[field] == BaseFieldErrors(attrs, field, Some(rule))
  {
    WithLengthEntry(errors, field, Get(attrs, field), rule);
  }

  /** The LENGTH step on a field that already has a list adds no field. */
  lemma WithLengthKeys(errors: FieldErrors, field: string, value: Option<string>, rule: LengthRule)
    requires field in errors
    ensures forall f :: f in WithLength(errors, field, value, rule) <==> f in errors
  {
    if Truthy(value) {
      SetDefaultExtendFrame(errors, field, RuleErrors(value.value, rule));
    }
  }

  /** `if value: errors.setdefault(field, []).extend(validate_length(value, …))` */
  method LengthStep(errors: FieldErrors, field: string, value: Option<string>, rule: LengthRule) returns (r: FieldErrors)
    ensures r == WithLength(errors, field, value, rule)
  {
    r := errors;
    if Truthy(value) {
      var fieldErrors := ValidateLength(value.value, Some(rule.minLen), Some(rule.maxLen),
                                        Some(rule.minCode.Value()), Some(rule.maxCode.Value()));
      r := SetDefaultExtend(r, field, fieldErrors);
    }
  }

  /** A single-entry error map, as the post-validation checks raise it. */
  function OneError(field: string, code: string): (r: FieldErrors)
    ensures r.Keys == {field} && Codes(r[field]) == [code]
  {
    map[field := [Err(code)]]
  }
}
